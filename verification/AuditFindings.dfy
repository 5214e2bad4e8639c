/** The two shapes of `pnpm audit` output, flattened into findings, and the whole check from file to exit code. */
module AuditFindings {
  import opened Prelude
  import opened ExceptionParser
  import opened AuditGate
  import opened AuditLaws
  import opened AuditMeaning

  datatype Advisory = Advisory(
    moduleName: Scalar, name: Scalar, severity: Option<string>, githubAdvisoryId: Scalar, url: Scalar,
    cves: seq<Scalar>, id: Scalar, title: Scalar, advisory: Scalar, overview: Scalar)

  datatype ViaItem =
    | ViaDict(githubAdvisoryId: Scalar, url: Scalar, source: Scalar, title: Scalar, name: Scalar, advisory: Scalar)
    | ViaStr(s: string)
    | ViaOther

  datatype Via = ViaList(items: seq<ViaItem>) | ViaString(s: string) | ViaNothing

  datatype Vulnerability = Vulnerability(name: string, severity: Option<string>, via: Via)

  /** A section that is missing or not an object is empty. */
  datatype Audit = Audit(advisories: seq<Advisory>, vulnerabilities: seq<Vulnerability>)

  /** Joining titles raises TypeError when one of them is not a string. */
  datatype AuditError = TitleNotString(name: string) | BadExceptions(error: ParseError)

  /** Python's `or` between two values. */
  function Or(a: Scalar, b: Scalar): Scalar {
    if Truthy(a) then a else b
  }

  function PickAdvisoryId(env: Env, a: Advisory): Scalar {
    Or(a.githubAdvisoryId,
       Or(a.url,
          Or(if a.cves == [] then Null else a.cves[0],
             Or(if a.id != Null then Str(ToStr(env, a.id)) else Null,
                Or(a.title, Or(a.advisory, a.overview))))))
  }

  function AdvisoryFinding(env: Env, a: Advisory): Finding {
    Finding(Or(a.moduleName, a.name), a.severity, PickAdvisoryId(env, a),
            Or(a.title, Or(a.advisory, Or(a.overview, a.url))))
  }

  function ItemIds(it: ViaItem): seq<Scalar> {
    match it
    case ViaDict(gh, url, source, title, name, _) => [Or(gh, Or(url, Or(source, Or(title, name))))]
    case ViaStr(s) => [Str(s)]
    case ViaOther => []
  }

  function ItemTitles(it: ViaItem): seq<Scalar> {
    match it
    case ViaDict(_, url, source, title, _, advisory) => [Or(title, Or(url, Or(advisory, source)))]
    case ViaStr(s) => [Str(s)]
    case ViaOther => []
  }

  function Flatten<A, B>(f: A -> seq<B>, s: seq<A>): seq<B> {
    if s == [] then [] else Flatten(f, Init(s)) + f(Last(s))
  }

  function OnlyTruthy(s: seq<Scalar>): seq<Scalar> {
    if s == [] then [] else if Truthy(Last(s)) then OnlyTruthy(Init(s)) + [Last(s)] else OnlyTruthy(Init(s))
  }

  function Ids(v: Vulnerability): seq<Scalar> {
    match v.via
    case ViaList(items) => OnlyTruthy(Flatten(ItemIds, items))
    case ViaString(s) => OnlyTruthy([Str(s)])
    case ViaNothing => []
  }

  function Titles(v: Vulnerability): seq<Scalar> {
    match v.via
    case ViaList(items) => OnlyTruthy(Flatten(ItemTitles, items))
    case ViaString(s) => OnlyTruthy([Str(s)])
    case ViaNothing => []
  }

  function Join(s: seq<Scalar>): string
    requires forall i :: 0 <= i < |s| ==> s[i].Str?
  {
    if s == [] then "" else if |s| == 1 then s[0].s else Join(Init(s)) + "; " + Last(s).s
  }

  predicate TitlesAreStrings(v: Vulnerability) {
    forall i :: 0 <= i < |Titles(v)| ==> Titles(v)[i].Str?
  }

  function VulnerabilityFindings(v: Vulnerability): seq<Finding>
    requires TitlesAreStrings(v)
  {
    seq(|Ids(v)|, i requires 0 <= i < |Ids(v)| => Finding(Str(v.name), v.severity, Ids(v)[i], Str(Join(Titles(v)))))
  }

  function FromAdvisories(env: Env, s: seq<Advisory>): seq<Finding> {
    seq(|s|, i requires 0 <= i < |s| => AdvisoryFinding(env, s[i]))
  }

  function FromVulnerabilities(s: seq<Vulnerability>): Result<seq<Finding>, AuditError> {
    if s == [] then Ok([])
    else
      match FromVulnerabilities(Init(s))
      case Err(e) => Err(e)
      case Ok(fs) =>
        if TitlesAreStrings(Last(s)) then Ok(fs + VulnerabilityFindings(Last(s))) else Err(TitleNotString(Last(s).name))
  }

  function Findings(env: Env, a: Audit): Result<seq<Finding>, AuditError> {
    match FromVulnerabilities(a.vulnerabilities)
    case Err(e) => Err(e)
    case Ok(fs) => Ok(FromAdvisories(env, a.advisories) + fs)
  }

  /** The second half of the generator. */
  method ListVulnerabilities(s: seq<Vulnerability>) returns (r: Result<seq<Finding>, AuditError>)
    ensures r == FromVulnerabilities(s)
  {
    var fs: seq<Finding> := [];
    for i := 0 to |s|
      invariant FromVulnerabilities(s[..i]) == Ok(fs)
    {
      assert Init(s[..i + 1]) == s[..i];
      if !TitlesAreStrings(s[i]) {
        FailureStays(s, i + 1);
        return Err(TitleNotString(s[i].name));
      }
      fs := fs + VulnerabilityFindings(s[i]);
    }
    assert s[..|s|] == s;
    return Ok(fs);
  }

  /** The generator, run to its end. */
  method IterVulns(env: Env, a: Audit) returns (r: Result<seq<Finding>, AuditError>)
    ensures r == Findings(env, a)
  {
    var fs: seq<Finding> := [];
    for i := 0 to |a.advisories|
      invariant fs == FromAdvisories(env, a.advisories[..i])
    {
      fs := fs + [AdvisoryFinding(env, a.advisories[i])];
    }
    assert a.advisories[..|a.advisories|] == a.advisories;
    var more := ListVulnerabilities(a.vulnerabilities);
    return if more.Err? then Err(more.error) else Ok(fs + more.value);
  }

  lemma {:induction false} FailureStays(s: seq<Vulnerability>, i: nat)
    requires i <= |s| && FromVulnerabilities(s[..i]).Err?
    ensures FromVulnerabilities(s) == FromVulnerabilities(s[..i])
    decreases |s|
  {
    if i == |s| {
      assert s[..i] == s;
    } else {
      assert Init(s)[..i] == s[..i];
      FailureStays(Init(s), i);
    }
  }

  /** From the exception file and the audit to the exit code. */
  method CheckAudit(env: Env, exceptionText: string, audit: Audit) returns (r: Result<int, AuditError>)
    ensures r.Ok? <==> Parse(Lines(exceptionText)).Ok? && Findings(env, audit).Ok?
    ensures r.Ok? ==>
              && (r.value == 0 <==> ExitsZero(env, Parse(Lines(exceptionText)).value, Findings(env, audit).value))
              && (r.value == 0 || r.value == 1)
  {
    var exceptions := ParseExceptions(Lines(exceptionText));
    if exceptions.Err? {
      return Err(BadExceptions(exceptions.error));
    }
    var findings := IterVulns(env, audit);
    if findings.Err? {
      return Err(findings.error);
    }
    var code, report := Gate(env, exceptions.value, findings.value);
    ExitsZeroIff(env, exceptions.value, findings.value);
    return Ok(code);
  }

  /******* What reaches the gate *******/

  /** The audit with one more vulnerability entry. */
  function Adding(a: Audit, v: Vulnerability): Audit {
    a.(vulnerabilities := a.vulnerabilities + [v])
  }

  ghost predicate UnidentifiedItem(it: ViaItem) {
    match it
    case ViaDict(gh, url, source, title, name, _) =>
      !Truthy(gh) && !Truthy(url) && !Truthy(source) && !Truthy(title) && !Truthy(name)
    case ViaStr(s) => s == ""
    case ViaOther => true
  }

  /** Nothing in the entry can serve as an identifier. */
  ghost predicate Unidentified(via: Via) {
    match via
    case ViaList(items) => forall i :: 0 <= i < |items| ==> UnidentifiedItem(items[i])
    case ViaString(s) => s == ""
    case ViaNothing => true
  }

  lemma {:induction false} TruthyConcat(a: seq<Scalar>, b: seq<Scalar>)
    ensures OnlyTruthy(a + b) == OnlyTruthy(a) + OnlyTruthy(b)
  {
    if b == [] {
      assert a + b == a;
    } else {
      TruthyConcat(a, Init(b));
      assert Init(a + b) == a + Init(b);
    }
  }

  lemma ItemIdentified(it: ViaItem)
    ensures OnlyTruthy(ItemIds(it)) == [] <==> UnidentifiedItem(it)
  {
    if ItemIds(it) != [] {
      var x := ItemIds(it)[0];
      assert ItemIds(it) == [x] && Init([x]) == [] && Last([x]) == x;
    }
  }

  lemma {:induction false} ItemsIdentified(items: seq<ViaItem>)
    ensures OnlyTruthy(Flatten(ItemIds, items)) == [] <==> forall i :: 0 <= i < |items| ==> UnidentifiedItem(items[i])
  {
    if items != [] {
      ItemsIdentified(Init(items));
      TruthyConcat(Flatten(ItemIds, Init(items)), ItemIds(Last(items)));
      ItemIdentified(Last(items));
      assert forall i :: 0 <= i < |items| ==> items[i] == if i < |items| - 1 then Init(items)[i] else Last(items);
      assert Last(items) == items[|items| - 1];
    }
  }

  lemma IdentifiedIff(v: Vulnerability)
    ensures Ids(v) == [] <==> Unidentified(v.via)
  {
    match v.via
    case ViaList(items) => ItemsIdentified(items);
    case ViaString(s) => ItemIdentified(ViaStr(s));
    case ViaNothing =>
  }

  lemma FindingsOfAdding(env: Env, a: Audit, v: Vulnerability)
    requires TitlesAreStrings(v) && Findings(env, a).Ok?
    ensures Findings(env, Adding(a, v)) == Ok(Findings(env, a).value + VulnerabilityFindings(v))
  {
    assert Init(a.vulnerabilities + [v]) == a.vulnerabilities;
    var fs, more := FromVulnerabilities(a.vulnerabilities).value, VulnerabilityFindings(v);
    assert FromVulnerabilities(a.vulnerabilities + [v]) == Ok(fs + more);
    assert FromAdvisories(env, a.advisories) + (fs + more) == FromAdvisories(env, a.advisories) + fs + more;
  }

  /** Findings of no interest at the end do not change the verdict. */
  lemma CleanWithout(env: Env, es: seq<Record>, fs: seq<Finding>, more: seq<Finding>)
    requires forall i :: 0 <= i < |more| ==> !Relevant(env, more[i])
    ensures Clean(env, es, fs + more) <==> Clean(env, es, fs)
  {
    var all := fs + more;
    assert forall i :: 0 <= i < |all| ==> all[i] == if i < |fs| then fs[i] else more[i - |fs|];
    assert forall i :: IsFirst(env, all, i) <==> IsFirst(env, fs, i);
    if Clean(env, es, all) {
      forall i | 0 <= i < |fs| && Relevant(env, fs[i]) ensures Checkable(env, fs[i]) {
        assert all[i] == fs[i];
      }
      forall i | IsFirst(env, fs, i) ensures Covered(env, es, fs[i]) {
        assert IsFirst(env, all, i) && all[i] == fs[i];
      }
    }
  }

  /** Without exceptions any relevant finding fails the gate. */
  lemma NeverCleanUnexcepted(env: Env, fs: seq<Finding>, i: nat)
    requires i < |fs| && Relevant(env, fs[i])
    ensures !Clean(env, [], fs)
  {
    if Clean(env, [], fs) {
      var m := HasFirst(env, fs, i);
      assert false;
    }
  }

  ghost predicate SameVerdict(env: Env, es: seq<Record>, a: Audit, b: Audit) {
    && Findings(env, a).Ok? && Findings(env, b).Ok?
    && (Clean(env, es, Findings(env, a).value) <==> Clean(env, es, Findings(env, b).value))
  }

  /** The entry is of lower severity, has no name, or holds nothing that can serve as an identifier. */
  ghost predicate Unnoticed(env: Env, v: Vulnerability) {
    || (NormalizeSeverity(env, v.severity) != "high" && NormalizeSeverity(env, v.severity) != "critical")
    || v.name == ""
    || Unidentified(v.via)
  }

  lemma UnnoticedFindings(env: Env, v: Vulnerability, more: seq<Finding>)
    requires TitlesAreStrings(v) && more == VulnerabilityFindings(v)
    ensures Unnoticed(env, v) ==> forall i :: 0 <= i < |more| ==> !Relevant(env, more[i])
    ensures !Unnoticed(env, v) ==> |more| > 0 && Relevant(env, more[0])
  {
    IdentifiedIff(v);
    assert forall i :: 0 <= i < |more| ==> more[i].name == Str(v.name) && more[i].severity == v.severity;
    assert |more| == |Ids(v)|;
  }

  lemma NoticedAlone(env: Env, v: Vulnerability)
    requires TitlesAreStrings(v) && !Unnoticed(env, v)
    ensures Findings(env, Audit([], [])) == Ok([])
    ensures !SameVerdict(env, [], Audit([], []), Adding(Audit([], []), v))
  {
    var none, more := Audit([], []), VulnerabilityFindings(v);
    UnnoticedFindings(env, v, more);
    assert FromAdvisories(env, none.advisories) + [] == [];
    FindingsOfAdding(env, none, v);
    assert [] + more == more;
    NeverCleanUnexcepted(env, more, 0);
    assert Clean(env, [], []);
  }

  /**
   A vulnerability entry never changes the verdict exactly when it is of lower severity, has no name, or holds nothing
   that can serve as an identifier.  So an entry of high severity without an identifier goes unnoticed.
   */
  lemma VulnerabilityIgnoredIff(env: Env, v: Vulnerability)
    requires TitlesAreStrings(v)
    ensures (forall a, es :: Findings(env, a).Ok? ==> SameVerdict(env, es, a, Adding(a, v))) <==> Unnoticed(env, v)
  {
    if Unnoticed(env, v) {
      var more := VulnerabilityFindings(v);
      UnnoticedFindings(env, v, more);
      forall a, es | Findings(env, a).Ok? ensures SameVerdict(env, es, a, Adding(a, v)) {
        FindingsOfAdding(env, a, v);
        CleanWithout(env, es, Findings(env, a).value, more);
      }
    } else {
      NoticedAlone(env, v);
    }
  }

  /******* When the tool itself fails on the audit *******/

  predicate TruthyNumber(v: Scalar) {
    v.Num? && v.n != 0
  }

  /** The first usable candidate for the item's title is a number. */
  predicate NumberTitled(it: ViaItem) {
    match it
    case ViaDict(_, url, source, title, _, advisory) =>
      || TruthyNumber(title)
      || (!Truthy(title) && TruthyNumber(url))
      || (!Truthy(title) && !Truthy(url) && TruthyNumber(advisory))
      || (!Truthy(title) && !Truthy(url) && !Truthy(advisory) && TruthyNumber(source))
    case _ => false
  }

  ghost predicate BadTitles(via: Via) {
    via.ViaList? && exists i :: 0 <= i < |via.items| && NumberTitled(via.items[i])
  }

  ghost predicate AllStrings(s: seq<Scalar>) {
    forall i :: 0 <= i < |s| ==> s[i].Str?
  }

  lemma ItemTitlesIff(it: ViaItem)
    ensures AllStrings(OnlyTruthy(ItemTitles(it))) <==> !NumberTitled(it)
  {
    if ItemTitles(it) != [] {
      var x := ItemTitles(it)[0];
      assert ItemTitles(it) == [x] && Init([x]) == [] && Last([x]) == x;
      assert OnlyTruthy([x]) == if Truthy(x) then [x] else [];
    }
  }

  lemma StringsConcat(a: seq<Scalar>, b: seq<Scalar>)
    ensures AllStrings(a + b) <==> AllStrings(a) && AllStrings(b)
  {
    if AllStrings(a + b) {
      assert forall i :: 0 <= i < |a| ==> a[i] == (a + b)[i];
      assert forall i :: 0 <= i < |b| ==> b[i] == (a + b)[|a| + i];
    }
  }

  lemma {:induction false} ItemsTitlesIff(items: seq<ViaItem>)
    ensures AllStrings(OnlyTruthy(Flatten(ItemTitles, items))) <==>
            forall i :: 0 <= i < |items| ==> !NumberTitled(items[i])
  {
    if items != [] {
      var init, last := Init(items), Last(items);
      ItemsTitlesIff(init);
      TruthyConcat(Flatten(ItemTitles, init), ItemTitles(last));
      StringsConcat(OnlyTruthy(Flatten(ItemTitles, init)), OnlyTruthy(ItemTitles(last)));
      ItemTitlesIff(last);
      assert forall i :: 0 <= i < |items| ==> items[i] == if i < |items| - 1 then init[i] else last;
      assert items[|items| - 1] == last;
    }
  }

  lemma TitlesIff(v: Vulnerability)
    ensures TitlesAreStrings(v) <==> !BadTitles(v.via)
  {
    assert TitlesAreStrings(v) <==> AllStrings(Titles(v));
    match v.via
    case ViaList(items) => ItemsTitlesIff(items);
    case ViaString(s) => ItemTitlesIff(ViaStr(s));
    case ViaNothing =>
  }

  /** Listing the findings fails exactly when some entry has an item whose first usable title is a number. */
  lemma {:induction false} ListingFailsIff(s: seq<Vulnerability>)
    ensures FromVulnerabilities(s).Err? <==> exists i :: 0 <= i < |s| && BadTitles(s[i].via)
  {
    if s != [] {
      ListingFailsIff(Init(s));
      TitlesIff(Last(s));
      assert forall i :: 0 <= i < |s| ==> s[i] == if i < |s| - 1 then Init(s)[i] else Last(s);
      assert s[|s| - 1] == Last(s);
    }
  }

  lemma FindingsFailIff(env: Env, a: Audit)
    ensures Findings(env, a).Err? <==> exists i :: 0 <= i < |a.vulnerabilities| && BadTitles(a.vulnerabilities[i].via)
  {
    ListingFailsIff(a.vulnerabilities);
  }

  /******* Advisories *******/

  /** The advisory is in the audit, and the gate passes. */
  ghost predicate PassesWith(env: Env, adv: Advisory, a: Audit, es: seq<Record>) {
    adv in a.advisories && Findings(env, a).Ok? && Clean(env, es, Findings(env, a).value)
  }

  /** The audit that reports nothing but the advisory. */
  lemma PassesAlone(env: Env, adv: Advisory, es: seq<Record>)
    ensures PassesWith(env, adv, Audit([adv], []), es) <==> Clean(env, es, [AdvisoryFinding(env, adv)])
  {
    var f, only := AdvisoryFinding(env, adv), Audit([adv], []);
    assert adv in only.advisories;
    assert FromAdvisories(env, only.advisories) + [] == [f];
  }

  /**
   An advisory fails the gate whatever else the audit holds and whatever is excepted exactly when it is of high
   severity, has a name, and its package or its identifier is blank.
   */
  lemma AdvisoryAlwaysFailsIff(env: Env, adv: Advisory)
    requires SaneEnv(env)
    ensures (forall a, es :: !PassesWith(env, adv, a, es)) <==>
            var f := AdvisoryFinding(env, adv); Relevant(env, f) && !Nameable(env, f)
  {
    var f := AdvisoryFinding(env, adv);
    if Relevant(env, f) && !Nameable(env, f) {
      forall a: Audit, es | adv in a.advisories && Findings(env, a).Ok?
        ensures !Clean(env, es, Findings(env, a).value)
      {
        var i :| 0 <= i < |a.advisories| && a.advisories[i] == adv;
        assert Findings(env, a).value[i] == f;
        BlankIsNeverClean(env, es, Findings(env, a).value, i);
      }
    } else if !Relevant(env, f) {
      PassesAlone(env, adv, []);
      assert Clean(env, [], [f]);
    } else {
      var d :| d != "" && InForce(env, d);
      ExceptionForCovers(env, f, d);
      CleanOne(env, ExceptionFor(env, f, d), f);
      PassesAlone(env, adv, [ExceptionFor(env, f, d)]);
    }
  }

  /******* What a finding holds *******/

  /** The first usable candidate, or the last one if none is usable. */
  ghost predicate FirstUsable(candidates: seq<Scalar>, x: Scalar) {
    exists i :: UsableAt(candidates, x, i)
  }

  ghost predicate UsableAt(candidates: seq<Scalar>, x: Scalar, i: int) {
    && 0 <= i < |candidates| && candidates[i] == x && (Truthy(x) || i == |candidates| - 1)
    && forall j :: 0 <= j < i ==> !Truthy(candidates[j])
  }

  lemma UsableCons(c: Scalar, rest: seq<Scalar>, x: Scalar)
    requires FirstUsable(rest, x)
    ensures FirstUsable([c] + rest, Or(c, x))
  {
    var all := [c] + rest;
    if Truthy(c) {
      assert UsableAt(all, c, 0);
    } else {
      var i :| UsableAt(rest, x, i);
      forall j | 0 <= j < i + 1 ensures !Truthy(all[j]) {
        if j > 0 {
          assert all[j] == rest[j - 1];
        }
      }
      assert UsableAt(all, x, i + 1);
    }
  }

  lemma UsableOne(c: Scalar)
    ensures FirstUsable([c], c)
  {
    assert UsableAt([c], c, 0);
  }

  /** The identifier of an advisory: the first usable of seven candidates, in this order. */
  lemma AdvisoryIdMeaning(env: Env, a: Advisory)
    ensures var cve := if a.cves == [] then Null else a.cves[0];
            var id := if a.id == Null then Null else Str(ToStr(env, a.id));
            FirstUsable([a.githubAdvisoryId, a.url, cve, id, a.title, a.advisory, a.overview], PickAdvisoryId(env, a))
  {
    var cve := if a.cves == [] then Null else a.cves[0];
    var id := if a.id == Null then Null else Str(ToStr(env, a.id));
    var three := [a.title, a.advisory, a.overview];
    UsableThree(a.title, a.advisory, a.overview);
    var x := Or(a.title, Or(a.advisory, a.overview));
    UsableCons(id, three, x);
    UsableCons(cve, [id] + three, Or(id, x));
    UsableCons(a.url, [cve] + ([id] + three), Or(cve, Or(id, x)));
    UsableCons(a.githubAdvisoryId, [a.url] + ([cve] + ([id] + three)), Or(a.url, Or(cve, Or(id, x))));
    assert [a.githubAdvisoryId] + ([a.url] + ([cve] + ([id] + three))) ==
           [a.githubAdvisoryId, a.url, cve, id, a.title, a.advisory, a.overview];
  }

  lemma UsableThree(a: Scalar, b: Scalar, c: Scalar)
    ensures FirstUsable([a, b, c], Or(a, Or(b, c)))
  {
    UsableOne(c);
    UsableCons(b, [c], c);
    assert [b] + [c] == [b, c];
    UsableCons(a, [b, c], Or(b, c));
    assert [a] + [b, c] == [a, b, c];
  }

  /** The finding of an advisory: package, severity, identifier and title. */
  lemma AdvisoryFindingMeaning(env: Env, a: Advisory)
    ensures var f := AdvisoryFinding(env, a);
            && FirstUsable([a.moduleName, a.name], f.name) && f.severity == a.severity
            && f.advisory == PickAdvisoryId(env, a) && FirstUsable([a.title, a.advisory, a.overview, a.url], f.title)
  {
    UsableOne(a.name);
    UsableCons(a.moduleName, [a.name], a.name);
    assert [a.moduleName] + [a.name] == [a.moduleName, a.name];
    UsableThree(a.advisory, a.overview, a.url);
    UsableCons(a.title, [a.advisory, a.overview, a.url], Or(a.advisory, Or(a.overview, a.url)));
    assert [a.title] + [a.advisory, a.overview, a.url] == [a.title, a.advisory, a.overview, a.url];
  }

  /** The item offers `x` as an identifier: a string itself, a dictionary its first usable candidate. */
  ghost predicate ItemOffers(it: ViaItem, x: Scalar) {
    match it
    case ViaDict(gh, url, source, title, name, _) => FirstUsable([gh, url, source, title, name], x)
    case ViaStr(s) => x == Str(s)
    case ViaOther => false
  }

  lemma FirstUsableUnique(cs: seq<Scalar>, x: Scalar, y: Scalar)
    requires FirstUsable(cs, x) && FirstUsable(cs, y)
    ensures x == y
  {
    var i :| UsableAt(cs, x, i);
    var k :| UsableAt(cs, y, k);
  }

  lemma ItemIdsMeaning(it: ViaItem, x: Scalar)
    ensures x in ItemIds(it) <==> ItemOffers(it, x)
  {
    match it
    case ViaDict(gh, url, source, title, name, _) =>
      var y := Or(gh, Or(url, Or(source, Or(title, name))));
      UsableThree(source, title, name);
      UsableCons(url, [source, title, name], Or(source, Or(title, name)));
      assert [url] + [source, title, name] == [url, source, title, name];
      UsableCons(gh, [url, source, title, name], Or(url, Or(source, Or(title, name))));
      assert [gh] + [url, source, title, name] == [gh, url, source, title, name];
      if ItemOffers(it, x) {
        FirstUsableUnique([gh, url, source, title, name], x, y);
      }
    case ViaStr(s) =>
    case ViaOther =>
  }

  lemma {:induction false} FlattenMembers<A(!new), B(!new)>(f: A -> seq<B>, s: seq<A>, x: B)
    ensures x in Flatten(f, s) <==> exists i :: 0 <= i < |s| && x in f(s[i])
  {
    if s != [] {
      FlattenMembers(f, Init(s), x);
      assert forall i :: 0 <= i < |s| ==> s[i] == if i < |s| - 1 then Init(s)[i] else Last(s);
      assert s[|s| - 1] == Last(s);
    }
  }

  lemma {:induction false} TruthyMembers(s: seq<Scalar>, x: Scalar)
    ensures x in OnlyTruthy(s) <==> x in s && Truthy(x)
  {
    if s != [] {
      TruthyMembers(Init(s), x);
      assert s == Init(s) + [Last(s)];
    }
  }

  /** What the entry offers as identifiers. */
  ghost predicate Offers(via: Via, x: Scalar) {
    match via
    case ViaList(items) => exists i :: 0 <= i < |items| && ItemOffers(items[i], x)
    case ViaString(s) => x == Str(s)
    case ViaNothing => false
  }

  lemma IdsMeaning(v: Vulnerability, x: Scalar)
    ensures x in Ids(v) <==> Offers(v.via, x) && Truthy(x)
  {
    match v.via
    case ViaList(items) =>
      TruthyMembers(Flatten(ItemIds, items), x);
      FlattenMembers(ItemIds, items, x);
      forall i | 0 <= i < |items| ensures x in ItemIds(items[i]) <==> ItemOffers(items[i], x) {
        ItemIdsMeaning(items[i], x);
      }
    case ViaString(s) => TruthyMembers([Str(s)], x);
    case ViaNothing =>
  }

  /** The findings of a vulnerability entry: one name, severity and title, with every usable identifier on offer. */
  lemma VulnerabilityFindingsMeaning(v: Vulnerability, f: Finding)
    requires TitlesAreStrings(v)
    ensures f in VulnerabilityFindings(v) <==>
            && f.name == Str(v.name) && f.severity == v.severity && f.title == Str(Join(Titles(v)))
            && Offers(v.via, f.advisory) && Truthy(f.advisory)
  {
    IdsMeaning(v, f.advisory);
    var ids, fs := Ids(v), VulnerabilityFindings(v);
    if f.advisory in ids && f.name == Str(v.name) && f.severity == v.severity && f.title == Str(Join(Titles(v))) {
      var i :| 0 <= i < |ids| && ids[i] == f.advisory;
      assert fs[i] == f;
    }
  }

  /** Titles are joined with a semicolon and a space. */
  lemma JoinMeaning(s: seq<Scalar>, x: string)
    requires s != [] && forall i :: 0 <= i < |s| ==> s[i].Str?
    ensures Join([Str(x)]) == x && Join(s + [Str(x)]) == Join(s) + "; " + x
  {
    assert Init(s + [Str(x)]) == s;
  }

  /** Every advisory and every vulnerability entry contributes its findings, and nothing else does. */
  lemma FindingsMeaning(env: Env, a: Audit, f: Finding)
    requires Findings(env, a).Ok?
    ensures f in Findings(env, a).value <==>
            || (exists i :: 0 <= i < |a.advisories| && AdvisoryFinding(env, a.advisories[i]) == f)
            || (exists i :: 0 <= i < |a.vulnerabilities| && TitlesAreStrings(a.vulnerabilities[i])
                            && f in VulnerabilityFindings(a.vulnerabilities[i]))
  {
    EntriesMeaning(a.vulnerabilities, f);
    var fs := FromAdvisories(env, a.advisories);
    assert f in fs <==> exists i :: 0 <= i < |a.advisories| && fs[i] == f;
    assert forall i :: 0 <= i < |a.advisories| ==> fs[i] == AdvisoryFinding(env, a.advisories[i]);
  }

  lemma {:induction false} EntriesMeaning(s: seq<Vulnerability>, f: Finding)
    requires FromVulnerabilities(s).Ok?
    ensures f in FromVulnerabilities(s).value <==>
            exists i :: 0 <= i < |s| && TitlesAreStrings(s[i]) && f in VulnerabilityFindings(s[i])
  {
    if s != [] {
      EntriesMeaning(Init(s), f);
      assert forall i :: 0 <= i < |s| ==> s[i] == if i < |s| - 1 then Init(s)[i] else Last(s);
      assert s[|s| - 1] == Last(s);
    }
  }

  /** The item offers `x` as a title: a string itself, a dictionary its first usable candidate. */
  lemma ItemTitlesMeaning(it: ViaItem)
    ensures it.ViaDict? ==>
              |ItemTitles(it)| == 1 && FirstUsable([it.title, it.url, it.advisory, it.source], ItemTitles(it)[0])
    ensures it.ViaStr? ==> ItemTitles(it) == [Str(it.s)]
    ensures it.ViaOther? ==> ItemTitles(it) == []
  {
    match it
    case ViaDict(_, url, source, title, _, advisory) =>
      UsableThree(url, advisory, source);
      UsableCons(title, [url, advisory, source], Or(url, Or(advisory, source)));
      assert [title] + [url, advisory, source] == [title, url, advisory, source];
    case ViaStr(s) =>
    case ViaOther =>
  }

  /** Items contribute one after the other, and unusable ones are left out where they stand. */
  lemma {:induction false} FlattenConcat<A, B>(f: A -> seq<B>, a: seq<A>, b: seq<A>)
    ensures Flatten(f, a + b) == Flatten(f, a) + Flatten(f, b)
  {
    if b == [] {
      assert a + b == a;
    } else {
      FlattenConcat(f, a, Init(b));
      assert Init(a + b) == a + Init(b);
    }
  }

  lemma SingleItem<A, B>(f: A -> seq<B>, x: A, v: Scalar)
    ensures Flatten(f, [x]) == f(x)
    ensures OnlyTruthy([v]) == if Truthy(v) then [v] else []
  {
    assert Init([x]) == [] && Last([x]) == x && Init([v]) == [] && Last([v]) == v;
    assert Flatten(f, []) + f(x) == f(x);
  }
}
