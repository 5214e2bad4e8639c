/** Defaults and validation of an account create. */
module AccountCreate {
  import opened Prelude
  import opened EntSchema
  import opened AccountSchema

  type AccountMutation = Mutation<Column>

  /** What the runtime package initialises: default values (None is a nil default function) and field validators. */
  datatype Runtime = Runtime(default: Column -> Option<Value>, valid: (Column, Value) -> bool)

  datatype ValidationError = Missing(column: Column) | Invalid(column: Column)

  /** One `if` of the generated check. */
  datatype Step = Required(column: Column) | Validated(column: Column)

  /** In the order defaults() visits them; only the first four come from functions that may be nil. */
  const DEFAULTED: seq<Column> := [
    CreatedAt, UpdatedAt, Credentials, Extra,
    Concurrency, Priority, RateMultiplier, Status, AutoPauseOnExpired, Schedulable, QuotaDimension]

  const CHECKS: seq<Step> := [
    Required(CreatedAt), Required(UpdatedAt), Required(Name), Validated(Name), Required(Platform), Validated(Platform),
    Required(Type), Validated(Type), Required(Credentials), Required(Extra), Required(Concurrency), Required(Priority),
    Required(RateMultiplier), Required(Status), Validated(Status), Required(AutoPauseOnExpired), Required(Schedulable),
    Validated(SessionWindowStatus), Required(QuotaDimension), Validated(QuotaDimension)]

  predicate FromFunction(c: Column) {
    c == CreatedAt || c == UpdatedAt || c == Credentials || c == Extra
  }

  /** Defaults that are plain variables or constants always exist. */
  ghost predicate ValidRuntime(rt: Runtime) {
    forall c :: c in DEFAULTED && !FromFunction(c) ==> rt.default(c).Some?
  }

  /******* defaults() *******/

  /** The mutation after the given columns were visited, and the column whose default is uninitialised, if any. */
  function DefaultsOver(rt: Runtime, m: AccountMutation, cs: seq<Column>): (AccountMutation, Option<Column>) {
    if cs == [] then (m, None)
    else
      var (m', stopped) := DefaultsOver(rt, m, Init(cs));
      var c := Last(cs);
      if stopped.Some? || c in m'.fields then (m', stopped)
      else if rt.default(c).None? then (m', Some(c))
      else (m'.(fields := m'.fields[c := rt.default(c).value]), None)
  }

  function Defaults(rt: Runtime, m: AccountMutation): (AccountMutation, Option<Column>) {
    DefaultsOver(rt, m, DEFAULTED)
  }

  /** Defaults only fill gaps, with their own values; all of them on success, and not the failing column otherwise. */
  lemma {:induction false} DefaultsMeaning(rt: Runtime, m: AccountMutation, cs: seq<Column>)
    ensures var (m', stopped) := DefaultsOver(rt, m, cs);
            && m'.edges == m.edges
            && (forall c :: c in m.fields ==> c in m'.fields && m'.fields[c] == m.fields[c])
            && (forall c :: c in m'.fields && c !in m.fields ==> c in cs && rt.default(c) == Some(m'.fields[c]))
            && (stopped.None? ==> forall c :: c in cs ==> c in m'.fields)
            && (stopped.Some? ==> stopped.value in cs && stopped.value !in m'.fields && rt.default(stopped.value).None?)
  {
    if cs != [] {
      DefaultsMeaning(rt, m, Init(cs));
      assert forall c :: c in cs <==> c in Init(cs) || c == Last(cs);
    }
  }

  /** Everything before place `i` is set, and nothing was filled from there on. */
  ghost predicate StopsAt(m: AccountMutation, m': AccountMutation, cs: seq<Column>, i: int) {
    && 0 <= i <= |cs| && (forall j :: 0 <= j < i ==> cs[j] in m'.fields)
    && (forall c :: c in m'.fields && c !in m.fields ==> c in cs[..i])
  }

  lemma StopsLonger(m: AccountMutation, m': AccountMutation, cs: seq<Column>, i: int)
    requires cs != [] && StopsAt(m, m', Init(cs), i)
    ensures StopsAt(m, m', cs, i)
  {
    assert cs[..i] == Init(cs)[..i];
  }

  /** When a default is uninitialised, what comes before it was filled and nothing after it was. */
  lemma {:induction false} DefaultsStop(rt: Runtime, m: AccountMutation, cs: seq<Column>) returns (i: nat)
    requires DefaultsOver(rt, m, cs).1.Some?
    ensures i < |cs| && cs[i] == DefaultsOver(rt, m, cs).1.value && StopsAt(m, DefaultsOver(rt, m, cs).0, cs, i)
  {
    var init := Init(cs);
    var r := DefaultsOver(rt, m, init);
    if r.1.Some? {
      i := DefaultsStop(rt, m, init);
      StopsLonger(m, r.0, cs, i);
    } else {
      i := |cs| - 1;
      DefaultsMeaning(rt, m, init);
      assert cs[..i] == init;
      assert forall j :: 0 <= j < i ==> cs[j] in init;
    }
  }

  /******* check() *******/

  function StepError(rt: Runtime, m: AccountMutation, s: Step): Option<ValidationError> {
    match s
    case Required(c) => if c in m.fields then None else Some(Missing(c))
    case Validated(c) => if c in m.fields && !rt.valid(c, m.fields[c]) then Some(Invalid(c)) else None
  }

  function CheckOver(rt: Runtime, m: AccountMutation, steps: seq<Step>): Option<ValidationError> {
    if steps == [] then None
    else
      var e := CheckOver(rt, m, Init(steps));
      if e.Some? then e else StepError(rt, m, Last(steps))
  }

  function Check(rt: Runtime, m: AccountMutation): Option<ValidationError> {
    CheckOver(rt, m, CHECKS)
  }

  /** The check passes exactly when every step does, and otherwise reports the first step that does not. */
  lemma {:induction false} CheckMeaning(rt: Runtime, m: AccountMutation, steps: seq<Step>)
    ensures CheckOver(rt, m, steps).None? <==> forall i :: 0 <= i < |steps| ==> StepError(rt, m, steps[i]).None?
    ensures CheckOver(rt, m, steps).Some? ==>
              exists i :: 0 <= i < |steps| && StepError(rt, m, steps[i]) == CheckOver(rt, m, steps)
                          && forall j :: 0 <= j < i ==> StepError(rt, m, steps[j]).None?
  {
    if steps != [] {
      CheckMeaning(rt, m, Init(steps));
      assert forall i :: 0 <= i < |steps| ==> steps[i] == if i < |steps| - 1 then Init(steps)[i] else Last(steps);
      if CheckOver(rt, m, Init(steps)).Some? {
        var i :| 0 <= i < |Init(steps)| && StepError(rt, m, Init(steps)[i]) == CheckOver(rt, m, Init(steps))
                 && forall j :: 0 <= j < i ==> StepError(rt, m, Init(steps)[j]).None?;
        assert steps[i] == Init(steps)[i];
      } else if CheckOver(rt, m, steps).Some? {
        assert steps[|steps| - 1] == Last(steps);
      }
    }
  }

  /** Every column whose default may be missing is required by the check. */
  lemma LazyDefaultsAreRequired(c: Column)
    requires c in DEFAULTED && FromFunction(c)
    ensures exists i :: 0 <= i < |CHECKS| && CHECKS[i] == Required(c)
  {
    assert CHECKS[0] == Required(CreatedAt) && CHECKS[1] == Required(UpdatedAt);
    assert CHECKS[8] == Required(Credentials) && CHECKS[9] == Required(Extra);
  }

  /** Throwing away the error of defaults() is harmless: the check that follows fails. */
  lemma DroppedDefaultsErrorIsCaught(rt: Runtime, m: AccountMutation)
    requires ValidRuntime(rt)
    ensures var (m', stopped) := Defaults(rt, m); stopped.Some? ==> Check(rt, m').Some?
  {
    var (m', stopped) := Defaults(rt, m);
    if stopped.Some? {
      var c := stopped.value;
      DefaultsMeaning(rt, m, DEFAULTED);
      LazyDefaultsAreRequired(c);
      var i :| 0 <= i < |CHECKS| && CHECKS[i] == Required(c);
      CheckMeaning(rt, m', CHECKS);
      assert StepError(rt, m', CHECKS[i]).Some?;
    }
  }

  lemma RequiredIsDefaultedOrNamed(i: nat)
    requires i < |CHECKS| && CHECKS[i].Required?
    ensures CHECKS[i].column in [Name, Platform, Type] || CHECKS[i].column in DEFAULTED
  {
    var d := DEFAULTED;
    assert d[0] == CreatedAt && d[1] == UpdatedAt && d[2] == Credentials && d[3] == Extra && d[4] == Concurrency;
    assert d[5] == Priority && d[6] == RateMultiplier && d[7] == Status && d[8] == AutoPauseOnExpired;
    assert d[9] == Schedulable && d[10] == QuotaDimension;
    var n := [Name, Platform, Type];
    assert n[0] == Name && n[1] == Platform && n[2] == Type;
  }

  /** After successful defaults only three fields can still be reported missing. */
  lemma OnlyThreeCanBeMissing(rt: Runtime, m: AccountMutation)
    ensures var (m', stopped) := Defaults(rt, m);
            var e := Check(rt, m');
            stopped.None? && e.Some? && e.value.Missing? ==> e.value.column in [Name, Platform, Type]
  {
    var (m', stopped) := Defaults(rt, m);
    var e := Check(rt, m');
    if stopped.None? && e.Some? && e.value.Missing? {
      DefaultsMeaning(rt, m, DEFAULTED);
      CheckMeaning(rt, m', CHECKS);
      var i :| 0 <= i < |CHECKS| && StepError(rt, m', CHECKS[i]) == e;
      RequiredIsDefaultedOrNamed(i);
    }
  }

  /** The columns check requires, by name, and those whose value it validates. */
  ghost const REQUIRED: set<Column> := {
    CreatedAt, UpdatedAt, Name, Platform, Type, Credentials, Extra, Concurrency, Priority, RateMultiplier, Status,
    AutoPauseOnExpired, Schedulable, QuotaDimension}

  ghost const VALIDATED: set<Column> := {Name, Platform, Type, Status, SessionWindowStatus, QuotaDimension}

  ghost predicate Complete(rt: Runtime, m: AccountMutation) {
    && (forall c :: c in REQUIRED ==> c in m.fields)
    && (forall c :: c in VALIDATED && c in m.fields ==> rt.valid(c, m.fields[c]))
  }

  /** The steps of the check are those of the named columns. */
  lemma StepsByName(s: Step)
    ensures s in CHECKS <==> (s.Required? && s.column in REQUIRED) || (s.Validated? && s.column in VALIDATED)
  {
    var k := CHECKS;
    assert k[0] == Required(CreatedAt) && k[1] == Required(UpdatedAt) && k[2] == Required(Name);
    assert k[3] == Validated(Name) && k[4] == Required(Platform) && k[5] == Validated(Platform);
    assert k[6] == Required(Type) && k[7] == Validated(Type) && k[8] == Required(Credentials);
    assert k[9] == Required(Extra) && k[10] == Required(Concurrency) && k[11] == Required(Priority);
    assert k[12] == Required(RateMultiplier) && k[13] == Required(Status) && k[14] == Validated(Status);
    assert k[15] == Required(AutoPauseOnExpired) && k[16] == Required(Schedulable);
    assert k[17] == Validated(SessionWindowStatus) && k[18] == Required(QuotaDimension);
    assert k[19] == Validated(QuotaDimension);
  }

  /** The check passes exactly when the fourteen required fields are set and the six validated ones are valid. */
  lemma CheckByName(rt: Runtime, m: AccountMutation)
    ensures Check(rt, m).None? <==> Complete(rt, m)
  {
    CheckMeaning(rt, m, CHECKS);
    if Check(rt, m).None? {
      forall s | s in CHECKS ensures StepError(rt, m, s).None? {
        var i :| 0 <= i < |CHECKS| && CHECKS[i] == s;
      }
      forall c | c in REQUIRED ensures c in m.fields {
        StepsByName(Required(c));
        assert StepError(rt, m, Required(c)).None?;
      }
      forall c | c in VALIDATED && c in m.fields ensures rt.valid(c, m.fields[c]) {
        StepsByName(Validated(c));
        assert StepError(rt, m, Validated(c)).None?;
      }
    }
    if Complete(rt, m) {
      forall i | 0 <= i < |CHECKS| ensures StepError(rt, m, CHECKS[i]).None? {
        StepsByName(CHECKS[i]);
      }
    }
  }

  /** The columns that defaults fill, by name. */
  ghost const FILLED: set<Column> := {
    CreatedAt, UpdatedAt, Credentials, Extra, Concurrency, Priority, RateMultiplier, Status, AutoPauseOnExpired,
    Schedulable, QuotaDimension}

  lemma DefaultsByName(rt: Runtime, m: AccountMutation)
    ensures var (m', stopped) := Defaults(rt, m);
            && (stopped.None? ==> forall c :: c in m'.fields <==> c in m.fields || c in FILLED)
            && (forall c :: c in m'.fields && c !in m.fields ==> c in FILLED && rt.default(c) == Some(m'.fields[c]))
  {
    DefaultsMeaning(rt, m, DEFAULTED);
    DefaultedNames();
  }

  lemma DefaultedNames()
    ensures forall c :: c in DEFAULTED <==> c in FILLED
  {
    var d := DEFAULTED;
    assert d[0] == CreatedAt && d[1] == UpdatedAt && d[2] == Credentials && d[3] == Extra && d[4] == Concurrency;
    assert d[5] == Priority && d[6] == RateMultiplier && d[7] == Status && d[8] == AutoPauseOnExpired;
    assert d[9] == Schedulable && d[10] == QuotaDimension;
  }

  /** Checks follow the columns of the table, and a column is required before it is validated. */
  lemma ChecksFollowTheTable(i: nat)
    requires i + 1 < |CHECKS|
    ensures var a, b := CHECKS[i], CHECKS[i + 1];
            Position(a.column) < Position(b.column) || (a.column == b.column && a.Required? && b.Validated?)
  {
    match i
    case 0 => assert CHECKS[0].column.CreatedAt? && CHECKS[1].column.UpdatedAt?;
    case 1 => assert CHECKS[1].column.UpdatedAt? && CHECKS[2].column.Name?;
    case 2 => assert CHECKS[2].column.Name? && CHECKS[3].column.Name?;
    case 3 => assert CHECKS[3].column.Name? && CHECKS[4].column.Platform?;
    case 4 => assert CHECKS[4].column.Platform? && CHECKS[5].column.Platform?;
    case 5 => assert CHECKS[5].column.Platform? && CHECKS[6].column.Type?;
    case 6 => assert CHECKS[6].column.Type? && CHECKS[7].column.Type?;
    case 7 => assert CHECKS[7].column.Type? && CHECKS[8].column.Credentials?;
    case 8 => assert CHECKS[8].column.Credentials? && CHECKS[9].column.Extra?;
    case 9 => assert CHECKS[9].column.Extra? && CHECKS[10].column.Concurrency?;
    case 10 => assert CHECKS[10].column.Concurrency? && CHECKS[11].column.Priority?;
    case 11 => assert CHECKS[11].column.Priority? && CHECKS[12].column.RateMultiplier?;
    case 12 => assert CHECKS[12].column.RateMultiplier? && CHECKS[13].column.Status?;
    case 13 => assert CHECKS[13].column.Status? && CHECKS[14].column.Status?;
    case 14 => assert CHECKS[14].column.Status? && CHECKS[15].column.AutoPauseOnExpired?;
    case 15 => assert CHECKS[15].column.AutoPauseOnExpired? && CHECKS[16].column.Schedulable?;
    case 16 => assert CHECKS[16].column.Schedulable? && CHECKS[17].column.SessionWindowStatus?;
    case 17 => assert CHECKS[17].column.SessionWindowStatus? && CHECKS[18].column.QuotaDimension?;
    case 18 => assert CHECKS[18].column.QuotaDimension? && CHECKS[19].column.QuotaDimension?;
  }

  lemma {:induction false} ChecksInOrder(i: nat, j: nat)
    requires i < j < |CHECKS|
    ensures Position(CHECKS[i].column) <= Position(CHECKS[j].column)
  {
    ChecksFollowTheTable(j - 1);
    if i < j - 1 {
      ChecksInOrder(i, j - 1);
    }
  }

  ghost predicate Ordered(steps: seq<Step>) {
    forall i, j :: 0 <= i < j < |steps| ==> Position(steps[i].column) <= Position(steps[j].column)
  }

  lemma EarlierPass(rt: Runtime, m: AccountMutation, steps: seq<Step>, s: Step)
    requires Ordered(steps) && CheckOver(rt, m, steps).Some?
    requires s in steps && Position(s.column) < Position(CheckOver(rt, m, steps).value.column)
    ensures StepError(rt, m, s).None?
  {
    CheckMeaning(rt, m, steps);
    var i :| 0 <= i < |steps| && StepError(rt, m, steps[i]) == CheckOver(rt, m, steps) &&
             forall j :: 0 <= j < i ==> StepError(rt, m, steps[j]).None?;
    var j :| 0 <= j < |steps| && steps[j] == s;
  }

  /** The column reported is the first one of the table that is missing or invalid. */
  lemma CheckReportsFirst(rt: Runtime, m: AccountMutation, c: Column)
    requires Check(rt, m).Some? && Position(c) < Position(Check(rt, m).value.column)
    ensures c in REQUIRED ==> c in m.fields
    ensures c in VALIDATED && c in m.fields ==> rt.valid(c, m.fields[c])
  {
    forall i, j | 0 <= i < j < |CHECKS| ensures Position(CHECKS[i].column) <= Position(CHECKS[j].column) {
      ChecksInOrder(i, j);
    }
    StepsByName(Required(c));
    StepsByName(Validated(c));
    if c in REQUIRED { EarlierPass(rt, m, CHECKS, Required(c)); }
    if c in VALIDATED { EarlierPass(rt, m, CHECKS, Validated(c)); }
  }

  /** Defaults follow the columns of the table too, so the first uninitialised one is the one reported. */
  lemma DefaultsFollowTheTable(i: nat)
    requires i + 1 < |DEFAULTED|
    ensures Position(DEFAULTED[i]) < Position(DEFAULTED[i + 1])
  {
  }
}
