/** What exit code 0 means, and what the verdict does not depend on. */
module AuditLaws {
  import opened Prelude
  import opened PyText
  import opened ExceptionParser
  import opened AuditGate

  /** The report of the gate, as method Gate computes it. */
  ghost function Outcome(env: Env, es: seq<Record>, fs: seq<Finding>): Report {
    Append(Report(RecordErrors(env, es), [], []), Scan(env, Index(env, es), {}, fs))
  }

  /******* The declarative verdict *******/

  /** The finding is the first checkable one with its package and advisory. */
  ghost predicate IsFirst(env: Env, fs: seq<Finding>, i: int) {
    && 0 <= i < |fs| && Checkable(env, fs[i])
    && forall j :: 0 <= j < i && Checkable(env, fs[j]) ==> FindingKey(env, fs[j]) != FindingKey(env, fs[i])
  }

  /** The exception is for the finding, still in force, and agrees on the severity unless it names none. */
  ghost predicate Covers(env: Env, r: Record, f: Finding) {
    var severity := env.lower(Strip(Get(r, "severity")));
    && ExceptionKey(env, r) == FindingKey(env, f)
    && InForce(env, Get(r, "expires_on"))
    && (severity == "" || severity == Severity(env, f))
  }

  ghost predicate SoundExceptions(env: Env, es: seq<Record>) {
    && (forall i :: 0 <= i < |es| ==> Fault(env, es[i]).None?)
    && (forall i, j :: 0 <= i < j < |es| ==> ExceptionKey(env, es[i]) != ExceptionKey(env, es[j]))
  }

  ghost predicate Covered(env: Env, es: seq<Record>, f: Finding) {
    exists r :: r in es && Covers(env, r, f)
  }

  ghost predicate Clean(env: Env, es: seq<Record>, fs: seq<Finding>) {
    && SoundExceptions(env, es)
    && (forall i :: 0 <= i < |fs| && Relevant(env, fs[i]) ==> Checkable(env, fs[i]))
    && (forall i :: IsFirst(env, fs, i) ==> Covered(env, es, fs[i]))
  }

  /******* Exceptions *******/

  /** The index holds the entry of every exception and nothing else. */
  ghost predicate FaithfulBy<R(!new), K(!new), E>(key: R -> K, entry: R -> E, es: seq<R>, index: map<K, E>) {
    && (forall i :: 0 <= i < |es| ==> key(es[i]) in index && index[key(es[i])] == entry(es[i]))
    && (forall k :: k in index ==> exists i :: 0 <= i < |es| && key(es[i]) == k)
  }

  ghost predicate Faithful(env: Env, es: seq<Record>, index: map<Key, Entry>) {
    FaithfulBy((r: Record) => ExceptionKey(env, r), (r: Record) => EntryOf(env, r), es, index)
  }

  lemma SoundSnoc(env: Env, es: seq<Record>, r: Record)
    ensures SoundExceptions(env, es + [r]) <==>
            SoundExceptions(env, es) && Fault(env, r).None? &&
            forall i :: 0 <= i < |es| ==> ExceptionKey(env, es[i]) != ExceptionKey(env, r)
  {
    var all := es + [r];
    assert forall i :: 0 <= i < |es| ==> all[i] == es[i];
    assert all[|es|] == r;
  }

  lemma FaithfulSnoc<R(!new), K(!new), E(!new)>(key: R -> K, entry: R -> E, es: seq<R>, r: R, index: map<K, E>)
    requires FaithfulBy(key, entry, es, index) && key(r) !in index
    ensures FaithfulBy(key, entry, es + [r], index[key(r) := entry(r)])
  {
    var all, index' := es + [r], index[key(r) := entry(r)];
    assert forall i :: 0 <= i < |es| ==> all[i] == es[i];
    assert all[|es|] == r;
    forall k | k in index' ensures exists i :: 0 <= i < |all| && key(all[i]) == k {
      if k == key(r) {
        assert key(all[|es|]) == k;
      } else {
        var i :| 0 <= i < |es| && key(es[i]) == k;
        assert key(all[i]) == k;
      }
    }
  }

  lemma IndexSnoc(env: Env, es: seq<Record>, r: Record)
    ensures var bad := Fault(env, r).Some? || ExceptionKey(env, r) in Index(env, es);
            && Index(env, es + [r]) ==
               (if bad then Index(env, es) else Index(env, es)[ExceptionKey(env, r) := EntryOf(env, r)])
            && (RecordErrors(env, es + [r]) == [] <==> RecordErrors(env, es) == [] && !bad)
  {
    assert Init(es + [r]) == es;
  }

  lemma InIndex(env: Env, es: seq<Record>, k: Key)
    requires Faithful(env, es, Index(env, es))
    ensures k in Index(env, es) <==> exists i :: 0 <= i < |es| && ExceptionKey(env, es[i]) == k
  {
  }

  /** No error came out of the exceptions exactly when they are sound, and then the index is the exceptions. */
  lemma {:induction false} IndexMeaning(env: Env, es: seq<Record>)
    ensures RecordErrors(env, es) == [] <==> SoundExceptions(env, es)
    ensures SoundExceptions(env, es) ==> Faithful(env, es, Index(env, es))
  {
    if es != [] {
      var r, rest := Last(es), Init(es);
      assert es == rest + [r];
      IndexMeaning(env, rest);
      SoundSnoc(env, rest, r);
      IndexSnoc(env, rest, r);
      if SoundExceptions(env, rest) {
        InIndex(env, rest, ExceptionKey(env, r));
        if ExceptionKey(env, r) !in Index(env, rest) {
          FaithfulSnoc((r: Record) => ExceptionKey(env, r), (r: Record) => EntryOf(env, r), rest, r, Index(env, rest));
        }
      }
    }
  }

  /** The entry an indexed finding meets is fine exactly when some exception covers the finding. */
  predicate FineEntry(env: Env, index: map<Key, Entry>, f: Finding) {
    var k := FindingKey(env, f);
    && k in index && !(index[k].expiresOn < env.today)
    && (index[k].severity == "" || index[k].severity == Severity(env, f))
  }

  /** What the entry of a sound record says about a finding with its key. */
  lemma EntryCovers(env: Env, r: Record, f: Finding)
    requires Fault(env, r).None?
    ensures Covers(env, r, f) <==>
            var e := EntryOf(env, r);
            && ExceptionKey(env, r) == FindingKey(env, f) && !(e.expiresOn < env.today)
            && (e.severity == "" || e.severity == Severity(env, f))
  {
  }

  lemma FineIsCovered(env: Env, es: seq<Record>, f: Finding)
    requires SoundExceptions(env, es)
    ensures FineEntry(env, Index(env, es), f) <==> Covered(env, es, f)
  {
    IndexMeaning(env, es);
    var index := Index(env, es);
    if FineEntry(env, index, f) {
      var i :| 0 <= i < |es| && ExceptionKey(env, es[i]) == FindingKey(env, f);
      EntryCovers(env, es[i], f);
    }
    if Covered(env, es, f) {
      var r :| r in es && Covers(env, r, f);
      var i :| 0 <= i < |es| && es[i] == r;
      EntryCovers(env, es[i], f);
    }
  }

  /******* Findings *******/

  /** First among the findings, and not seen before them. */
  ghost predicate IsNew(env: Env, seen: set<Key>, fs: seq<Finding>, i: int) {
    IsFirst(env, fs, i) && FindingKey(env, fs[i]) !in seen
  }

  ghost predicate ScanClean(env: Env, index: map<Key, Entry>, seen: set<Key>, fs: seq<Finding>) {
    && (forall i :: 0 <= i < |fs| && Relevant(env, fs[i]) ==> Checkable(env, fs[i]))
    && (forall i :: IsNew(env, seen, fs, i) ==> FineEntry(env, index, fs[i]))
  }

  lemma JudgeMeaning(env: Env, index: map<Key, Entry>, seen: set<Key>, fs: seq<Finding>)
    requires fs != []
    ensures Judge(env, index, seen, fs[0]) == NOTHING <==>
            && (Relevant(env, fs[0]) ==> Checkable(env, fs[0]))
            && (IsNew(env, seen, fs, 0) ==> FineEntry(env, index, fs[0]))
  {
  }

  lemma ScanCleanCons(env: Env, index: map<Key, Entry>, seen: set<Key>, fs: seq<Finding>)
    requires fs != []
    ensures ScanClean(env, index, seen, fs) <==>
            Judge(env, index, seen, fs[0]) == NOTHING && ScanClean(env, index, SeenAfter(env, seen, fs[0]), fs[1..])
  {
    var rest, seen' := fs[1..], SeenAfter(env, seen, fs[0]);
    JudgeMeaning(env, index, seen, fs);
    assert forall i :: 0 < i < |fs| ==> fs[i] == rest[i - 1];
    forall i | 0 <= i < |rest|
      ensures rest[i] == fs[i + 1] && (IsNew(env, seen', rest, i) <==> IsNew(env, seen, fs, i + 1))
    {
      ShiftNew(env, seen, fs, i);
    }
    if Judge(env, index, seen, fs[0]) == NOTHING && ScanClean(env, index, seen', rest) {
      forall i | IsNew(env, seen, fs, i) ensures FineEntry(env, index, fs[i]) {
        assert i > 0 ==> IsNew(env, seen', rest, i - 1);
      }
    }
  }

  /** The deduplicating scan reports nothing exactly when every first finding meets a fine entry. */
  lemma {:induction false} ScanMeaning(env: Env, index: map<Key, Entry>, seen: set<Key>, fs: seq<Finding>)
    ensures Scan(env, index, seen, fs) == NOTHING <==> ScanClean(env, index, seen, fs)
    decreases |fs|
  {
    if fs != [] {
      var seen' := SeenAfter(env, seen, fs[0]);
      ScanMeaning(env, index, seen', fs[1..]);
      AppendNothing(Judge(env, index, seen, fs[0]), Scan(env, index, seen', fs[1..]));
      ScanCleanCons(env, index, seen, fs);
    }
  }

  lemma AppendNothing(a: Report, b: Report)
    ensures Append(a, b) == NOTHING <==> a == NOTHING && b == NOTHING
  {
  }

  lemma ShiftNew(env: Env, seen: set<Key>, fs: seq<Finding>, i: nat)
    requires i + 1 < |fs|
    ensures IsNew(env, SeenAfter(env, seen, fs[0]), fs[1..], i) <==> IsNew(env, seen, fs, i + 1)
  {
    var rest := fs[1..];
    assert forall j :: 0 <= j < |rest| ==> rest[j] == fs[j + 1];
    if IsNew(env, SeenAfter(env, seen, fs[0]), rest, i) {
      forall j | 0 <= j < i + 1 && Checkable(env, fs[j]) ensures FindingKey(env, fs[j]) != FindingKey(env, fs[i + 1]) {
        assert j > 0 ==> rest[j - 1] == fs[j];
      }
    }
  }

  /** The gate returns 0 exactly when the exceptions are sound and every first finding is covered. */
  lemma GateMeaning(env: Env, es: seq<Record>, fs: seq<Finding>)
    ensures Outcome(env, es, fs) == NOTHING <==> Clean(env, es, fs)
  {
    AppendNothing(Report(RecordErrors(env, es), [], []), Scan(env, Index(env, es), {}, fs));
    IndexMeaning(env, es);
    ScanMeaning(env, Index(env, es), {}, fs);
    if SoundExceptions(env, es) {
      forall i | IsFirst(env, fs, i) ensures FineEntry(env, Index(env, es), fs[i]) <==> Covered(env, es, fs[i]) {
        FineIsCovered(env, es, fs[i]);
      }
      assert forall i :: IsNew(env, {}, fs, i) <==> IsFirst(env, fs, i);
    }
  }

  /******* Order of the exceptions *******/

  lemma CountTwo<T>(s: seq<T>, i: nat, j: nat)
    requires i < j < |s| && s[i] == s[j]
    ensures multiset(s)[s[i]] >= 2
  {
    assert s == s[..i] + [s[i]] + s[i + 1..];
    assert s[i + 1..][j - i - 1] == s[i];
  }

  lemma TwoIndices<T>(s: seq<T>, x: T) returns (i: nat, j: nat)
    requires multiset(s)[x] >= 2
    ensures i < j < |s| && s[i] == x && s[j] == x
  {
    assert x in s;
    i :| 0 <= i < |s| && s[i] == x;
    assert s == s[..i] + [x] + s[i + 1..];
    if x in s[..i] {
      j := i;
      i :| 0 <= i < j && s[..j][i] == x;
    } else {
      assert x in s[i + 1..];
      var k :| 0 <= k < |s[i + 1..]| && s[i + 1..][k] == x;
      j := i + 1 + k;
    }
  }

  lemma DistinctPermuted<R(!new), K(!new)>(key: R -> K, a: seq<R>, b: seq<R>)
    requires multiset(a) == multiset(b) && DistinctBy(key, a)
    ensures DistinctBy(key, b)
  {
    forall i, j | 0 <= i < j < |b| ensures key(b[i]) != key(b[j]) {
      if b[i] == b[j] {
        CountTwo(b, i, j);
        var k, l := TwoIndices(a, b[i]);
        assert false;
      } else {
        assert b[i] in multiset(b) && b[j] in multiset(b);
        assert b[i] in a && b[j] in a;
        var k :| 0 <= k < |a| && a[k] == b[i];
        var l :| 0 <= l < |a| && a[l] == b[j];
      }
    }
  }

  lemma SoundPermuted(env: Env, a: seq<Record>, b: seq<Record>)
    requires multiset(a) == multiset(b) && SoundExceptions(env, a)
    ensures SoundExceptions(env, b)
  {
    DistinctPermuted((r: Record) => ExceptionKey(env, r), a, b);
    forall i | 0 <= i < |b| ensures Fault(env, b[i]).None? {
      assert b[i] in multiset(b) && b[i] in multiset(a);
      var k :| 0 <= k < |a| && a[k] == b[i];
    }
    assert forall i, j :: 0 <= i < j < |b| ==> ExceptionKey(env, b[i]) != ExceptionKey(env, b[j]);
  }

  lemma CleanPermuted(env: Env, a: seq<Record>, b: seq<Record>, fs: seq<Finding>)
    requires multiset(a) == multiset(b) && Clean(env, a, fs)
    ensures Clean(env, b, fs)
  {
    SoundPermuted(env, a, b);
    forall i | IsFirst(env, fs, i) ensures Covered(env, b, fs[i]) {
      var r :| r in a && Covers(env, r, fs[i]);
      assert r in multiset(a) && r in b;
    }
  }

  /** The verdict does not depend on the order of the exceptions. */
  lemma ExceptionOrderIrrelevant(env: Env, a: seq<Record>, b: seq<Record>, fs: seq<Finding>)
    requires multiset(a) == multiset(b)
    ensures Outcome(env, a, fs) == NOTHING <==> Outcome(env, b, fs) == NOTHING
  {
    GateMeaning(env, a, fs);
    GateMeaning(env, b, fs);
    if Clean(env, a, fs) { CleanPermuted(env, a, b, fs); }
    if Clean(env, b, fs) { CleanPermuted(env, b, a, fs); }
  }

  /******* Repeated and reordered findings *******/

  /** A copy of an earlier finding, inserted anywhere after it. */
  ghost function Repeated(fs: seq<Finding>, i: nat, j: nat): seq<Finding>
    requires i < j <= |fs|
  {
    fs[..j] + [fs[i]] + fs[j..]
  }

  ghost function SeenAll(env: Env, seen: set<Key>, fs: seq<Finding>): set<Key>
    decreases |fs|
  {
    if fs == [] then seen else SeenAll(env, SeenAfter(env, seen, fs[0]), fs[1..])
  }

  lemma {:induction false} ScanConcat(env: Env, index: map<Key, Entry>, seen: set<Key>, a: seq<Finding>,
                                      b: seq<Finding>)
    ensures Scan(env, index, seen, a + b) == NOTHING <==>
            Scan(env, index, seen, a) == NOTHING && Scan(env, index, SeenAll(env, seen, a), b) == NOTHING
    decreases |a|
  {
    if a == [] {
      assert a + b == b;
    } else {
      var f, rest, seen' := a[0], a[1..], SeenAfter(env, seen, a[0]);
      ScanConcat(env, index, seen', rest, b);
      assert (a + b)[0] == f && (a + b)[1..] == rest + b;
      AppendNothing(Judge(env, index, seen, f), Scan(env, index, seen', rest));
      AppendNothing(Judge(env, index, seen, f), Scan(env, index, seen', rest + b));
    }
  }

  lemma {:induction false} SeenGrows(env: Env, seen: set<Key>, fs: seq<Finding>)
    ensures seen <= SeenAll(env, seen, fs)
    decreases |fs|
  {
    if fs != [] {
      SeenGrows(env, SeenAfter(env, seen, fs[0]), fs[1..]);
    }
  }

  /** After a scan without complaints, judging one of its findings again adds nothing. */
  lemma {:induction false} JudgedAgain(env: Env, index: map<Key, Entry>, seen: set<Key>, fs: seq<Finding>, i: nat)
    requires i < |fs| && Scan(env, index, seen, fs) == NOTHING
    ensures var seen' := SeenAll(env, seen, fs);
            Judge(env, index, seen', fs[i]) == NOTHING && SeenAfter(env, seen', fs[i]) == seen'
    decreases |fs|
  {
    var seen' := SeenAfter(env, seen, fs[0]);
    AppendNothing(Judge(env, index, seen, fs[0]), Scan(env, index, seen', fs[1..]));
    if i > 0 {
      JudgedAgain(env, index, seen', fs[1..], i - 1);
    } else {
      SeenGrows(env, seen', fs[1..]);
    }
  }

  /** Reporting a finding again later changes nothing. */
  lemma RepetitionIrrelevant(env: Env, es: seq<Record>, fs: seq<Finding>, i: nat, j: nat)
    requires i < j <= |fs|
    ensures Outcome(env, es, Repeated(fs, i, j)) == NOTHING <==> Outcome(env, es, fs) == NOTHING
  {
    var index, a, b := Index(env, es), fs[..j], fs[j..];
    var seen := SeenAll(env, {}, a);
    var records := Report(RecordErrors(env, es), [], []);
    assert fs == a + b && Repeated(fs, i, j) == a + ([fs[i]] + b);
    ScanConcat(env, index, {}, a, b);
    ScanConcat(env, index, {}, a, [fs[i]] + b);
    AppendNothing(records, Scan(env, index, {}, fs));
    AppendNothing(records, Scan(env, index, {}, Repeated(fs, i, j)));
    if Scan(env, index, {}, a) == NOTHING {
      JudgedAgain(env, index, {}, a, i);
      assert a[i] == fs[i] && ([fs[i]] + b)[1..] == b;
      AppendAssoc(Scan(env, index, seen, b), NOTHING, NOTHING);
    }
  }

  /** No package and advisory is reported with two different high severities. */
  ghost predicate Consistent(env: Env, fs: seq<Finding>) {
    forall f, g :: f in fs && g in fs && Checkable(env, f) && Checkable(env, g) ==>
      (FindingKey(env, f) == FindingKey(env, g) ==> Severity(env, f) == Severity(env, g))
  }

  lemma {:induction false} HasFirst(env: Env, fs: seq<Finding>, i: nat) returns (m: nat)
    requires i < |fs| && Checkable(env, fs[i])
    ensures IsFirst(env, fs, m) && FindingKey(env, fs[m]) == FindingKey(env, fs[i])
  {
    if IsFirst(env, fs, i) {
      m := i;
    } else {
      var j :| 0 <= j < i && Checkable(env, fs[j]) && FindingKey(env, fs[j]) == FindingKey(env, fs[i]);
      m := HasFirst(env, fs, j);
    }
  }

  lemma CoveredAlike(env: Env, es: seq<Record>, f: Finding, g: Finding)
    requires FindingKey(env, f) == FindingKey(env, g) && Severity(env, f) == Severity(env, g)
    ensures Covered(env, es, f) <==> Covered(env, es, g)
  {
    assert forall r :: Covers(env, r, f) <==> Covers(env, r, g);
  }

  /** Without conflicting severities the verdict is about the set of findings. */
  lemma CleanBySet(env: Env, es: seq<Record>, fs: seq<Finding>)
    requires Consistent(env, fs)
    ensures Clean(env, es, fs) <==>
            && SoundExceptions(env, es)
            && forall f :: f in fs && Relevant(env, f) ==> Checkable(env, f) && Covered(env, es, f)
  {
    if Clean(env, es, fs) {
      forall f | f in fs && Relevant(env, f) ensures Checkable(env, f) && Covered(env, es, f) {
        var i :| 0 <= i < |fs| && fs[i] == f;
        var m := HasFirst(env, fs, i);
        CoveredAlike(env, es, f, fs[m]);
      }
    }
  }

  /** The verdict does not depend on the order or number of findings when no key carries two high severities. */
  lemma FindingOrderIrrelevant(env: Env, es: seq<Record>, fs: seq<Finding>, gs: seq<Finding>)
    requires Consistent(env, fs) && (forall f :: f in fs <==> f in gs)
    ensures Outcome(env, es, fs) == NOTHING <==> Outcome(env, es, gs) == NOTHING
  {
    GateMeaning(env, es, fs);
    GateMeaning(env, es, gs);
    CleanBySet(env, es, fs);
    CleanBySet(env, es, gs);
  }

  /******* Which findings can be excepted at all *******/

  /** Lower-casing keeps the empty string, and some date still lies ahead. */
  ghost predicate SaneEnv(env: Env) {
    env.lower("") == "" && exists d: string :: d != "" && InForce(env, d)
  }

  ghost predicate InForce(env: Env, d: string) {
    env.parseDate(d).Some? && env.parseDate(d).value >= env.today
  }

  /** An exception written for the finding, valid until `date`. */
  ghost function ExceptionFor(env: Env, f: Finding, date: string): Record
    requires f.severity.Some?
  {
    map["package" := ToStr(env, f.name), "advisory" := ToStr(env, f.advisory), "severity" := f.severity.value,
        "mitigation" := "planned", "expires_on" := date]
  }

  /** An exception can name the finding: neither its package nor its advisory is blank. */
  ghost predicate Nameable(env: Env, f: Finding) {
    FindingKey(env, f).0 != "" && FindingKey(env, f).1 != ""
  }

  lemma ExceptionFields(env: Env, f: Finding, date: string)
    requires f.severity.Some?
    ensures var r := ExceptionFor(env, f, date);
            && Get(r, "package") == ToStr(env, f.name) && Get(r, "advisory") == ToStr(env, f.advisory)
            && Get(r, "severity") == f.severity.value && Get(r, "mitigation") == "planned"
            && Get(r, "expires_on") == date
  {
    assert "advisory"[0] != "severity"[0] && "mitigation"[0] != "expires_on"[0];
  }

  /** The exception written for a nameable finding is sound and covers it. */
  lemma ExceptionForCovers(env: Env, f: Finding, date: string)
    requires env.lower("") == "" && Relevant(env, f) && Nameable(env, f) && date != "" && InForce(env, date)
    ensures f.severity.Some?
    ensures var r := ExceptionFor(env, f, date);
            Fault(env, r).None? && Covers(env, r, f) && EntryOf(env, r).severity == Severity(env, f)
  {
    assert Strip("") == "";
    ExceptionFields(env, f, date);
    var r := ExceptionFor(env, f, date);
    assert ToStr(env, f.name) != "" && ToStr(env, f.advisory) != "";
    assert ExceptionKey(env, r) == FindingKey(env, f);
    forall g | g in REQUIRED_FIELDS ensures Get(r, g) != "" {
    }
  }

  /** A blank package can never be excepted: the exception itself would be refused. */
  lemma BlankIsNeverClean(env: Env, es: seq<Record>, fs: seq<Finding>, i: nat)
    requires i < |fs| && Relevant(env, fs[i]) && !Nameable(env, fs[i])
    ensures !Clean(env, es, fs)
  {
    if Clean(env, es, fs) {
      var m := HasFirst(env, fs, i);
      var r :| r in es && Covers(env, r, fs[m]);
      assert false;
    }
  }

  lemma CleanOne(env: Env, r: Record, f: Finding)
    requires Fault(env, r).None? && Covers(env, r, f) && Checkable(env, f)
    ensures Clean(env, [r], [f])
  {
    assert r in [r];
  }

  /** The order of two findings with one key matters to some exceptions exactly when their severities differ. */
  lemma OrderMattersIffConflict(env: Env, f: Finding, g: Finding)
    requires SaneEnv(env) && Checkable(env, f) && Checkable(env, g) && Nameable(env, f)
    requires FindingKey(env, f) == FindingKey(env, g)
    ensures (forall es :: Outcome(env, es, [f, g]) == NOTHING <==> Outcome(env, es, [g, f]) == NOTHING) <==>
            Severity(env, f) == Severity(env, g)
  {
    if Severity(env, f) == Severity(env, g) {
      forall es ensures Outcome(env, es, [f, g]) == NOTHING <==> Outcome(env, es, [g, f]) == NOTHING {
        FindingOrderIrrelevant(env, es, [f, g], [g, f]);
      }
    } else {
      var d :| d != "" && InForce(env, d);
      ExceptionForCovers(env, f, d);
      ConflictShows(env, ExceptionFor(env, f, d), f, g);
    }
  }

  /** An exception for the one severity passes it when it comes first, and not when it comes second. */
  lemma ConflictShows(env: Env, r: Record, f: Finding, g: Finding)
    requires Checkable(env, f) && Checkable(env, g) && FindingKey(env, f) == FindingKey(env, g)
    requires Fault(env, r).None? && Covers(env, r, f)
    requires EntryOf(env, r).severity == Severity(env, f) != Severity(env, g)
    ensures Outcome(env, [r], [f, g]) == NOTHING && Outcome(env, [r], [g, f]) != NOTHING
  {
    GateMeaning(env, [r], [f, g]);
    GateMeaning(env, [r], [g, f]);
    FirstOfTwo(env, [r], f, g);
    FirstOfTwo(env, [r], g, f);
    assert r in [r];
    assert !Covers(env, r, g);
  }

  lemma FirstOfTwo(env: Env, es: seq<Record>, f: Finding, g: Finding)
    requires Checkable(env, f) && Checkable(env, g) && FindingKey(env, f) == FindingKey(env, g)
    ensures Clean(env, es, [f, g]) <==> SoundExceptions(env, es) && Covered(env, es, f)
  {
    assert IsFirst(env, [f, g], 0) && !IsFirst(env, [f, g], 1);
  }

  /** The findings the gate looks at. */
  ghost function OnlyRelevant(env: Env, fs: seq<Finding>): seq<Finding> {
    if fs == [] then [] else (if Relevant(env, fs[0]) then [fs[0]] else []) + OnlyRelevant(env, fs[1..])
  }

  lemma {:induction false} ScanOnlyRelevant(env: Env, index: map<Key, Entry>, seen: set<Key>, fs: seq<Finding>)
    ensures Scan(env, index, seen, fs) == Scan(env, index, seen, OnlyRelevant(env, fs))
    decreases |fs|
  {
    if fs != [] {
      var f, rest := fs[0], OnlyRelevant(env, fs[1..]);
      ScanOnlyRelevant(env, index, SeenAfter(env, seen, f), fs[1..]);
      if Relevant(env, f) {
        assert OnlyRelevant(env, fs) == [f] + rest && ([f] + rest)[1..] == rest;
      } else {
        assert OnlyRelevant(env, fs) == rest;
        AppendAssoc(Scan(env, index, seen, rest), NOTHING, NOTHING);
      }
    }
  }

  /** A finding of lower severity never hides a later one with the same key: dropping all of them changes no line. */
  lemma LowSeverityNeverMasks(env: Env, es: seq<Record>, fs: seq<Finding>)
    ensures Outcome(env, es, fs) == Outcome(env, es, OnlyRelevant(env, fs))
  {
    ScanOnlyRelevant(env, Index(env, es), {}, fs);
  }
}
