/**
 First, Only, Exist and their ID forms.  They fetch one or two rows through a builder context they write to; the verdict
 is the one of the unlimited result.  `source` is what FROM, WHERE and ORDER BY of the builder yield.
 */
module QueryVerdict {
  import opened Prelude
  import opened QueryBuilder

  datatype Row = Row(id: int, attrs: map<string, string>)

  /** ScanError: more than one column was scanned into a list of identifiers. */
  datatype QueryError = NotFoundError | NotSingularError | ScanError

  const FIELD_ID := "id"

  /** Identifiers are primary keys, also when a traversal repeats rows. */
  ghost predicate Keyed(source: seq<Row>) {
    forall r, s :: r in source && s in source && r.id == s.id ==> r == s
  }

  /** SELECT DISTINCT: the first occurrence of everything. */
  function Distinct<T(==)>(s: seq<T>): seq<T> {
    if s == [] then [] else if Last(s) in Init(s) then Distinct(Init(s)) else Distinct(Init(s)) + [Last(s)]
  }

  function Ids(s: seq<Row>): seq<int> {
    seq(|s|, i requires 0 <= i < |s| => s[i].id)
  }

  /** OFFSET and LIMIT of a statement. */
  function Cut<T>(skip: int, limit: Option<int>, s: seq<T>): seq<T> {
    var rest := s[if skip <= 0 then 0 else if skip <= |s| then skip else |s|..];
    if limit.Some? && 0 <= limit.value < |rest| then rest[..limit.value] else rest
  }

  function Skip(v: ContextView): int {
    if v.offset.Some? then v.offset.value else 0
  }

  /** The limit of an entity query: querySpec copies into plain integers, where zero means that none was set. */
  function EntityLimit(v: ContextView): Option<int> {
    if v.limit.Some? && v.limit.value != 0 then v.limit else if Skip(v) != 0 then Some(MAX_INT32) else None
  }

  /** The limit of an ID query: sqlQuery looks at the pointers; an offset brings a limit of its own. */
  function IdLimit(v: ContextView): Option<int> {
    if v.limit.Some? then v.limit else if v.offset.Some? then Some(MAX_INT32) else None
  }

  /** What sqlAll fetches: distinct rows if asked for, or by default on a traversal. */
  function Entities(v: ContextView, path: bool, source: seq<Row>): seq<Row> {
    var rows := if v.unique == Some(true) || (v.unique.None? && path) then Distinct(source) else source;
    Cut(Skip(v), EntityLimit(v), rows)
  }

  /** The whole result, as if no Limit had been set. */
  function Unlimited(v: ContextView, path: bool, source: seq<Row>): seq<Row> {
    Entities(v.(limit := None), path, source)
  }

  /** What sqlQuery fetches for the identifier column. */
  function IdColumn(v: ContextView, source: seq<Row>): seq<int> {
    Cut(Skip(v), IdLimit(v), if v.unique == Some(true) then Distinct(Ids(source)) else Ids(source))
  }

  method All(ctx: QueryContext, path: bool, source: seq<Row>) returns (nodes: seq<Row>)
    ensures nodes == Entities(ctx.View(), path, source)
  {
    nodes := Entities(ctx.View(), path, source);
  }

  /** IDs leaves its selection, and on a traversal its uniqueness, in the context; after an earlier Select it fails. */
  method IDs(ctx: QueryContext, path: bool, source: seq<Row>) returns (ids: Result<seq<int>, QueryError>)
    modifies ctx
    ensures ctx.View() == old(ctx.View()).(
              unique := if old(ctx.unique).None? && path then Some(true) else old(ctx.unique),
              fields := old(ctx.fields) + [FIELD_ID])
    ensures ids == if old(ctx.fields) == [] then Ok(IdColumn(ctx.View(), source)) else Err(ScanError)
  {
    if ctx.unique.None? && path {
      ctx.unique := Some(true);
    }
    ctx.fields := ctx.fields + [FIELD_ID];
    ids := if |ctx.fields| == 1 then Ok(IdColumn(ctx.View(), source)) else Err(ScanError);
  }

  /******* Verdicts of a whole result *******/

  function FirstOf<T>(s: seq<T>): Result<T, QueryError> {
    if s == [] then Err(NotFoundError) else Ok(s[0])
  }

  function OnlyOf<T>(s: seq<T>): Result<T, QueryError> {
    if s == [] then Err(NotFoundError) else if |s| == 1 then Ok(s[0]) else Err(NotSingularError)
  }

  function IdOf(r: Result<Row, QueryError>): Result<int, QueryError> {
    if r.Ok? then Ok(r.value.id) else Err(r.error)
  }

  /** The identifiers of the distinct rows are the distinct identifiers. */
  lemma {:induction false} DistinctIds(s: seq<Row>)
    requires Keyed(s)
    ensures Ids(Distinct(s)) == Distinct(Ids(s))
  {
    if s != [] {
      DistinctIds(Init(s));
      assert Init(Ids(s)) == Ids(Init(s)) && Last(Ids(s)) == Last(s).id;
      assert Last(s) in Init(s) <==> Last(s).id in Ids(Init(s)) by {
        if Last(s) in Init(s) {
          var i :| 0 <= i < |Init(s)| && Init(s)[i] == Last(s);
          assert Ids(Init(s))[i] == Last(s).id;
        }
        if Last(s).id in Ids(Init(s)) {
          var i :| 0 <= i < |Init(s)| && Ids(Init(s))[i] == Last(s).id;
          assert Init(s)[i] in s;
        }
      }
    }
  }

  /** Before any occurrence of a later row of the distinct list every earlier one has occurred. */
  ghost predicate FirstsInOrder<T>(d: seq<T>, s: seq<T>) {
    forall i, j, y :: 0 <= i < j < |d| && 0 <= y < |s| && s[y] == d[j] ==> d[i] in s[..y]
  }

  /** SELECT DISTINCT keeps every row once, in the order of first occurrence. */
  lemma {:induction false} DistinctMeaning<T(!new)>(s: seq<T>)
    ensures NoDuplicates(Distinct(s)) && forall e :: e in Distinct(s) <==> e in s
    ensures FirstsInOrder(Distinct(s), s)
  {
    if s != [] {
      var init, last := Init(s), Last(s);
      DistinctMeaning(init);
      var d := Distinct(init);
      assert s == init + [last];
      forall i | 0 <= i < |d| ensures d[i] in init {
        assert d[i] in d;
      }
      forall i, j, y | 0 <= i < j < |Distinct(s)| && 0 <= y < |s| && s[y] == Distinct(s)[j]
        ensures Distinct(s)[i] in s[..y]
      {
        if y < |init| {
          assert s[..y] == init[..y] && init[y] == s[y];
        } else {
          assert s[..y] == init;
        }
      }
    }
  }

  /** The rows of a page: from the offset on, as many as the limit allows. */
  lemma CutMeaning<T>(skip: int, limit: Option<int>, s: seq<T>)
    ensures var w, from := Cut(skip, limit, s), if skip < 0 then 0 else skip;
            && (forall i :: 0 <= i < |w| ==> from + i < |s| && w[i] == s[from + i])
            && (limit.None? ==> |w| == if |s| <= from then 0 else |s| - from)
            && (limit.Some? && limit.value >= 0 ==>
                  |w| == if |s| <= from then 0 else if |s| - from <= limit.value then |s| - from else limit.value)
  {
  }

  /** The unlimited result: all rows, or each once if asked for or by default on a traversal, from the offset on. */
  lemma UnlimitedMeaning(v: ContextView, path: bool, source: seq<Row>)
    ensures var once := v.unique == Some(true) || (v.unique.None? && path);
            var rows, all := Unlimited(v, path, source), if once then Distinct(source) else source;
            && (v.offset.None? ==> rows == all)
            && (v.offset.Some? && v.offset.value > 0 && |all| <= v.offset.value + MAX_INT32 ==>
                  rows == all[if v.offset.value <= |all| then v.offset.value else |all|..])
  {
  }

  lemma CutOfIds(skip: int, limit: Option<int>, s: seq<Row>)
    ensures Cut(skip, limit, Ids(s)) == Ids(Cut(skip, limit, s))
  {
  }

  /** The context of the ID query: distinct by default on a traversal. */
  function Uniquely(v: ContextView, path: bool): ContextView {
    v.(unique := if v.unique.None? && path then Some(true) else v.unique)
  }

  lemma SameRowsAt(v: ContextView, path: bool, source: seq<Row>)
    requires Keyed(source)
    ensures var rows := if Uniquely(v, path).unique == Some(true) then Distinct(source) else source;
            && Entities(v, path, source) == Cut(Skip(v), EntityLimit(v), rows)
            && IdColumn(Uniquely(v, path), source) == Ids(Cut(Skip(v), IdLimit(v), rows))
  {
    var v' := Uniquely(v, path);
    var rows := if v'.unique == Some(true) then Distinct(source) else source;
    DistinctIds(source);
    assert Skip(v') == Skip(v) && IdLimit(v') == IdLimit(v);
    CutOfIds(Skip(v), IdLimit(v), rows);
  }

  /** Rows with the identifiers 0 to n - 1. */
  function Numbered(n: nat): seq<Row> {
    seq(n, i => Row(i, map[]))
  }

  lemma {:induction false} NumberedIsDistinct(n: nat)
    ensures Keyed(Numbered(n)) && Distinct(Numbered(n)) == Numbered(n)
  {
    if n > 0 {
      NumberedIsDistinct(n - 1);
      assert Init(Numbered(n)) == Numbered(n - 1);
    }
  }

  ghost predicate SameAnswer(v: ContextView, path: bool, source: seq<Row>) {
    IdColumn(Uniquely(v, path), source) == Ids(Entities(v, path, source))
  }

  /**
   Entity and ID queries see the same rows of every table exactly when neither Limit(0) nor Offset(0) without a limit
   was called: a zero is no limit to the one and an empty or capped page to the other.
   */
  lemma SameRowsIff(v: ContextView, path: bool)
    ensures (forall source :: Keyed(source) ==> SameAnswer(v, path, source)) <==>
            v.limit != Some(0) && !(v.limit.None? && v.offset == Some(0))
  {
    if v.limit != Some(0) && !(v.limit.None? && v.offset == Some(0)) {
      assert EntityLimit(v) == IdLimit(v);
      forall source | Keyed(source) ensures SameAnswer(v, path, source) {
        SameRowsAt(v, path, source);
      }
    } else {
      var skip := if Skip(v) < 0 then 0 else Skip(v);
      var source := Numbered(if v.limit == Some(0) then skip + 1 else MAX_INT32 + 1);
      NumberedIsDistinct(|source|);
      SameRowsAt(v, path, source);
      assert |Cut(Skip(v), EntityLimit(v), source)| != |Cut(Skip(v), IdLimit(v), source)|;
      assert !SameAnswer(v, path, source);
    }
  }

  /** Fetching one or two rows decides like fetching all of them. */
  lemma FewRowsDecide<T>(skip: int, limit: Option<int>, s: seq<T>)
    requires limit.None? || limit == Some(MAX_INT32)
    ensures FirstOf(Cut(skip, Some(1), s)) == FirstOf(Cut(skip, limit, s))
    ensures OnlyOf(Cut(skip, Some(2), s)) == OnlyOf(Cut(skip, limit, s))
  {
  }

  /******* The builder methods; each overwrites an earlier Limit and leaves its own behind *******/

  method First(ctx: QueryContext, path: bool, source: seq<Row>) returns (r: Result<Row, QueryError>)
    modifies ctx
    ensures r == FirstOf(Unlimited(old(ctx.View()), path, source))
    ensures var all := Unlimited(old(ctx.View()), path, source);
            (all == [] <==> r == Err(NotFoundError)) && (all != [] ==> r == Ok(all[0]))
    ensures ctx.View() == old(ctx.View()).(limit := Some(1))
  {
    FewEntitiesDecide(ctx.View(), path, source);
    ctx.limit := Some(1);
    var nodes := All(ctx, path, source);
    if |nodes| == 0 {
      return Err(NotFoundError);
    }
    return Ok(nodes[0]);
  }

  method Only(ctx: QueryContext, path: bool, source: seq<Row>) returns (r: Result<Row, QueryError>)
    modifies ctx
    ensures r == OnlyOf(Unlimited(old(ctx.View()), path, source))
    ensures var all := Unlimited(old(ctx.View()), path, source);
            && (all == [] <==> r == Err(NotFoundError)) && (|all| > 1 <==> r == Err(NotSingularError))
            && (forall row :: r == Ok(row) <==> all == [row])
    ensures ctx.View() == old(ctx.View()).(limit := Some(2))
  {
    FewEntitiesDecide(ctx.View(), path, source);
    ctx.limit := Some(2);
    var nodes := All(ctx, path, source);
    if |nodes| == 1 {
      return Ok(nodes[0]);
    } else if |nodes| == 0 {
      return Err(NotFoundError);
    }
    return Err(NotSingularError);
  }

  /** The context IDs works with after `limit` was set. */
  function IdContext(v: ContextView, path: bool, limit: int): ContextView {
    Uniquely(v.(limit := Some(limit)), path).(fields := v.fields + [FIELD_ID])
  }

  lemma IdsOfEntities(v: ContextView, path: bool, source: seq<Row>, limit: int)
    requires Keyed(source) && limit != 0
    ensures IdColumn(IdContext(v, path, limit), source) == Ids(Entities(v.(limit := Some(limit)), path, source))
  {
    SameRowsIff(v.(limit := Some(limit)), path);
    assert SameAnswer(v.(limit := Some(limit)), path, source);
  }

  lemma FewEntitiesDecide(v: ContextView, path: bool, source: seq<Row>)
    ensures FirstOf(Entities(v.(limit := Some(1)), path, source)) == FirstOf(Unlimited(v, path, source))
    ensures OnlyOf(Entities(v.(limit := Some(2)), path, source)) == OnlyOf(Unlimited(v, path, source))
  {
    var rows := if v.unique == Some(true) || (v.unique.None? && path) then Distinct(source) else source;
    var skip, limit := Skip(v), EntityLimit(v.(limit := None));
    assert Entities(v.(limit := Some(1)), path, source) == Cut(skip, Some(1), rows);
    assert Entities(v.(limit := Some(2)), path, source) == Cut(skip, Some(2), rows);
    assert Unlimited(v, path, source) == Cut(skip, limit, rows);
    FewRowsDecide(skip, limit, rows);
  }

  lemma VerdictOfIds(s: seq<Row>)
    ensures FirstOf(Ids(s)) == IdOf(FirstOf(s)) && OnlyOf(Ids(s)) == IdOf(OnlyOf(s))
  {
  }

  method FirstID(ctx: QueryContext, path: bool, source: seq<Row>) returns (r: Result<int, QueryError>)
    requires Keyed(source)
    modifies ctx
    ensures r == if old(ctx.fields) == [] then IdOf(FirstOf(Unlimited(old(ctx.View()), path, source)))
                 else Err(ScanError)
    ensures ctx.View() == IdContext(old(ctx.View()), path, 1)
  {
    IdsOfEntities(ctx.View(), path, source, 1);
    VerdictOfIds(Entities(ctx.View().(limit := Some(1)), path, source));
    FewEntitiesDecide(ctx.View(), path, source);
    ctx.limit := Some(1);
    var ids := IDs(ctx, path, source);
    if ids.Err? {
      return Err(ids.error);
    }
    if |ids.value| == 0 {
      return Err(NotFoundError);
    }
    return Ok(ids.value[0]);
  }

  method OnlyID(ctx: QueryContext, path: bool, source: seq<Row>) returns (r: Result<int, QueryError>)
    requires Keyed(source)
    modifies ctx
    ensures r == if old(ctx.fields) == [] then IdOf(OnlyOf(Unlimited(old(ctx.View()), path, source)))
                 else Err(ScanError)
    ensures ctx.View() == IdContext(old(ctx.View()), path, 2)
  {
    IdsOfEntities(ctx.View(), path, source, 2);
    VerdictOfIds(Entities(ctx.View().(limit := Some(2)), path, source));
    FewEntitiesDecide(ctx.View(), path, source);
    ctx.limit := Some(2);
    var ids := IDs(ctx, path, source);
    if ids.Err? {
      return Err(ids.error);
    }
    if |ids.value| == 1 {
      return Ok(ids.value[0]);
    } else if |ids.value| == 0 {
      return Err(NotFoundError);
    }
    return Err(NotSingularError);
  }

  method Exist(ctx: QueryContext, path: bool, source: seq<Row>) returns (b: Result<bool, QueryError>)
    requires Keyed(source)
    modifies ctx
    ensures b == if old(ctx.fields) == [] then Ok(Unlimited(old(ctx.View()), path, source) != []) else Err(ScanError)
    ensures ctx.View() == IdContext(old(ctx.View()), path, 1)
  {
    var r := FirstID(ctx, path, source);
    if r == Err(NotFoundError) {
      return Ok(false);
    } else if r.Err? {
      return Err(r.error);
    }
    return Ok(true);
  }
}
