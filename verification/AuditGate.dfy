/** The audit gate: indexes the exceptions, scans the findings once per package and advisory, decides the exit code. */
module AuditGate {
  import opened Prelude
  import opened PyText
  import opened ExceptionParser

  /** A JSON scalar as it can turn up in a name or an advisory identifier. */
  datatype Scalar = Null | Str(s: string) | Num(n: int)

  /** What the gate takes from Python and the calendar: str.lower, str of a number, date.fromisoformat, today. */
  datatype Env = Env(lower: string -> string, str: int -> string, parseDate: string -> Option<int>, today: int)

  datatype Finding = Finding(name: Scalar, severity: Option<string>, advisory: Scalar, title: Scalar)

  type Key = (string, string)

  datatype Entry = Entry(severity: string, expiresOn: int)

  datatype GateError =
    | MissingFields(record: Record)
    | InvalidDate(record: Record)
    | EmptyKey(record: Record)
    | DuplicateException(key: Key)
    | NoAdvisoryId(finding: Finding)
    | SeverityMismatch(finding: Finding, got: string)

  datatype Report = Report(errors: seq<GateError>, missing: seq<Finding>, expired: seq<Finding>)

  const REQUIRED_FIELDS: set<string> := {"package", "advisory", "severity", "mitigation", "expires_on"}

  /******* Normalising *******/

  function NormalizeSeverity(env: Env, s: Option<string>): string {
    env.lower(Strip(if s.Some? then s.value else ""))
  }

  function ToStr(env: Env, v: Scalar): string {
    match v
    case Null => ""
    case Str(s) => s
    case Num(n) => env.str(n)
  }

  function NormalizePackage(env: Env, v: Scalar): string { Strip(ToStr(env, v)) }

  function NormalizeAdvisory(env: Env, v: Scalar): string { env.lower(Strip(ToStr(env, v))) }

  predicate Truthy(v: Scalar) {
    match v
    case Null => false
    case Str(s) => s != ""
    case Num(n) => n != 0
  }

  /******* Exceptions *******/

  function Get(r: Record, field: string): string {
    if field in r then r[field] else ""
  }

  function ExceptionKey(env: Env, r: Record): Key {
    (NormalizePackage(env, Str(Get(r, "package"))), NormalizeAdvisory(env, Str(Get(r, "advisory"))))
  }

  /** What is wrong with a record on its own, in the order the gate looks. */
  function Fault(env: Env, r: Record): Option<GateError> {
    if exists f :: f in REQUIRED_FIELDS && Get(r, f) == "" then Some(MissingFields(r))
    else if env.parseDate(Get(r, "expires_on")).None? then Some(InvalidDate(r))
    else if ExceptionKey(env, r).0 == "" || ExceptionKey(env, r).1 == "" then Some(EmptyKey(r))
    else None
  }

  function EntryOf(env: Env, r: Record): Entry {
    var d := env.parseDate(Get(r, "expires_on"));
    Entry(NormalizeSeverity(env, Some(Get(r, "severity"))), if d.Some? then d.value else 0)
  }

  function Index(env: Env, es: seq<Record>): map<Key, Entry> {
    if es == [] then map[]
    else
      var index := Index(env, Init(es));
      var r := Last(es);
      var key := ExceptionKey(env, r);
      if Fault(env, r).Some? || key in index then index else index[key := EntryOf(env, r)]
  }

  function RecordErrors(env: Env, es: seq<Record>): seq<GateError> {
    if es == [] then []
    else
      var r, errors := Last(es), RecordErrors(env, Init(es));
      if Fault(env, r).Some? then errors + [Fault(env, r).value]
      else if ExceptionKey(env, r) in Index(env, Init(es)) then errors + [DuplicateException(ExceptionKey(env, r))]
      else errors
  }

  /******* Findings *******/

  function Severity(env: Env, f: Finding): string { NormalizeSeverity(env, f.severity) }

  predicate Relevant(env: Env, f: Finding) {
    (Severity(env, f) == "high" || Severity(env, f) == "critical") && Truthy(f.name)
  }

  function FindingKey(env: Env, f: Finding): Key {
    (NormalizePackage(env, f.name), NormalizeAdvisory(env, f.advisory))
  }

  predicate Checkable(env: Env, f: Finding) {
    Relevant(env, f) && FindingKey(env, f).1 != ""
  }

  const NOTHING := Report([], [], [])

  function Append(a: Report, b: Report): Report {
    Report(a.errors + b.errors, a.missing + b.missing, a.expired + b.expired)
  }

  /** What one finding adds to the report. */
  function Judge(env: Env, index: map<Key, Entry>, seen: set<Key>, f: Finding): Report {
    var key := FindingKey(env, f);
    if !Relevant(env, f) then NOTHING
    else if key.1 == "" then Report([NoAdvisoryId(f)], [], [])
    else if key in seen then NOTHING
    else if key !in index then Report([], [f], [])
    else
      var e := index[key];
      Report(if e.severity != "" && e.severity != Severity(env, f) then [SeverityMismatch(f, e.severity)] else [],
             [],
             if e.expiresOn < env.today then [f] else [])
  }

  function SeenAfter(env: Env, seen: set<Key>, f: Finding): set<Key> {
    if Checkable(env, f) then seen + {FindingKey(env, f)} else seen
  }

  function Scan(env: Env, index: map<Key, Entry>, seen: set<Key>, fs: seq<Finding>): Report
    decreases |fs|
  {
    if fs == [] then NOTHING
    else Append(Judge(env, index, seen, fs[0]), Scan(env, index, SeenAfter(env, seen, fs[0]), fs[1..]))
  }

  /******* main *******/

  method BuildIndex(env: Env, exceptions: seq<Record>) returns (index: map<Key, Entry>, errors: seq<GateError>)
    ensures index == Index(env, exceptions)
    ensures errors == RecordErrors(env, exceptions)
  {
    index, errors := map[], [];
    for i := 0 to |exceptions|
      invariant index == Index(env, exceptions[..i])
      invariant errors == RecordErrors(env, exceptions[..i])
    {
      assert Init(exceptions[..i + 1]) == exceptions[..i];
      var r := exceptions[i];
      var fault := Fault(env, r);
      if fault.Some? {
        errors := errors + [fault.value];
        continue;
      }
      var key := ExceptionKey(env, r);
      if key in index {
        errors := errors + [DuplicateException(key)];
        continue;
      }
      index := index[key := EntryOf(env, r)];
    }
    assert exceptions[..|exceptions|] == exceptions;
  }

  lemma AppendAssoc(a: Report, b: Report, c: Report)
    ensures Append(Append(a, b), c) == Append(a, Append(b, c))
    ensures Append(a, NOTHING) == a == Append(NOTHING, a)
  {
  }

  /** The exit code and everything it is based on. */
  method Gate(env: Env, exceptions: seq<Record>, findings: seq<Finding>) returns (code: int, report: Report)
    ensures report == Append(Report(RecordErrors(env, exceptions), [], []),
                             Scan(env, Index(env, exceptions), {}, findings))
    ensures code == if report == NOTHING then 0 else 1
  {
    var index, errors := BuildIndex(env, exceptions);
    var missing, expired := [], [];
    var seen: set<Key> := {};
    ghost var total := Append(Report(errors, [], []), Scan(env, index, {}, findings));
    for i := 0 to |findings|
      invariant Append(Report(errors, missing, expired), Scan(env, index, seen, findings[i..])) == total
    {
      var f := findings[i];
      ghost var before := Report(errors, missing, expired);
      AppendAssoc(before, Judge(env, index, seen, f), Scan(env, index, SeenAfter(env, seen, f), findings[i + 1..]));
      assert findings[i..][1..] == findings[i + 1..];
      AppendAssoc(before, NOTHING, NOTHING);
      if !Relevant(env, f) {
        continue;
      }
      var key := FindingKey(env, f);
      if key.1 == "" {
        errors := errors + [NoAdvisoryId(f)];
        assert Report(errors, missing, expired) == Append(before, Report([NoAdvisoryId(f)], [], []));
        continue;
      }
      if key in seen {
        assert SeenAfter(env, seen, f) == seen;
        continue;
      }
      ghost var was := seen;
      seen := seen + {key};
      if key !in index {
        missing := missing + [f];
        assert Report(errors, missing, expired) == Append(before, Judge(env, index, was, f));
        continue;
      }
      var e := index[key];
      if e.severity != "" && e.severity != Severity(env, f) {
        errors := errors + [SeverityMismatch(f, e.severity)];
      }
      if e.expiresOn < env.today {
        expired := expired + [f];
      }
      assert Report(errors, missing, expired) == Append(before, Judge(env, index, was, f));
    }
    report := Report(errors, missing, expired);
    AppendAssoc(report, NOTHING, NOTHING);
    assert findings[|findings|..] == [];
    code := if report == NOTHING then 0 else 1;
  }
}
