/**
 What callers rely on after an eager load: how the edge accessors answer, that no row is lost, what repeated
 identifiers do, and what a Limit or an Offset on an edge query does to a small database.
 */
module EagerLaws {
  import opened Prelude
  import opened EagerModel
  import opened EagerLoad
  import opened EagerSplit
  import opened EagerBatch
  import opened EagerWindow
  import opened EagerSqlAll
  import opened EagerAgree

  /******* Edge accessors *******/

  function ProxyOrErr(e: AccountEdges): Result<ProxyRow, EdgeError> {
    if e.proxy.Some? then Ok(e.proxy.value)
    else if Proxy in e.loadedTypes then Err(NotFound(Proxy))
    else Err(NotLoaded(Proxy))
  }

  function ParentOrErr(e: AccountEdges): Result<Account, EdgeError> {
    if e.parent.Some? then Ok(e.parent.value)
    else if Parent in e.loadedTypes then Err(NotFound(Parent))
    else Err(NotLoaded(Parent))
  }

  /** The proxy query returned the row, and it is the account's, whatever columns the caller selected. */
  ghost predicate IsProxyOf(q: LeafQuery<ProxyRow>, ids: seq<Id>, r: AccountRow, db: Database, p: ProxyRow) {
    p in LeafRows(q, ProxyId, ids, db.proxies(q.order)) && r.proxyID == Some(p.id)
  }

  ghost predicate IsParentOf(q: AccountQuery, ids: seq<Id>, r: AccountRow, db: Database, p: AccountRow) {
    p in QueryRows(q, [IDIn(ids)], db) && r.parentAccountID == Some(p.id)
  }

  lemma {:induction false} BatchHas<R(!new)>(keep: R -> bool, key: R -> Option<Id>, ids: seq<Id>, table: seq<R>, r: R)
    requires r in table && keep(r) && key(r).Some? && key(r).value in ids
    ensures r in Batch(keep, key, ids, table)
  {
    if r != Last(table) {
      BatchHas(keep, key, ids, Init(table), r);
    }
  }

  /** Without a window the proxy query returns every stored row that it keeps and that was asked for. */
  lemma ReturnedProxies(q: LeafQuery<ProxyRow>, ids: seq<Id>, db: Database, p: ProxyRow)
    requires NoWindow(q.limit, q.offset)
    ensures p in LeafRows(q, ProxyId, ids, db.proxies(q.order)) <==>
            p in db.proxies(q.order) && q.keep(p) && p.id in ids
  {
    var table := db.proxies(q.order);
    BatchMeaning(q.keep, ProxyId, ids, table);
    WholeWindow(q.limit, Batch(q.keep, ProxyId, ids, table), |Batch(q.keep, ProxyId, ids, table)|);
    if p in table && q.keep(p) && p.id in ids {
      BatchHas(q.keep, ProxyId, ids, table, p);
    }
  }

  /** Among rows with distinct keys, the first with a key is the only one. */
  lemma OnlyWithKey<E(!new)>(fk: E -> Option<Id>, k: Id, s: seq<E>, e: E)
    requires |WithKey(fk, k, s)| <= 1
    ensures First(WithKey(fk, k, s)) == Some(e) <==> e in s && fk(e) == Some(k)
  {
    WithKeyMeaning(fk, k, s);
    var found := WithKey(fk, k, s);
    if found != [] {
      assert found[0] in found;
      assert found == [found[0]];
    }
  }

  lemma LoadedAt(q: AccountQuery, rows: seq<AccountRow>, i: nat, db: Database)
    requires i < |rows|
    ensures Loaded(q, rows, db)[i] == LoadedNode(q, FreshNodes(q, rows), Fresh(q, rows[i]), db)
  {
  }

  /** The edges that were asked for are marked as loaded. */
  lemma RequestedMeaning(q: AccountQuery)
    ensures (Groups in Requested(q) <==> q.withGroups.Some?) && (Proxy in Requested(q) <==> q.withProxy.Some?)
    ensures (Parent in Requested(q) <==> q.withParent.Some?) && (Children in Requested(q) <==> q.withChildren.Some?)
    ensures UsageLogs in Requested(q) <==> q.withUsageLogs.Some?
    ensures AccountGroups in Requested(q) <==> q.withAccountGroups.Some?
  {
  }

  /** The two to-one edges of a node, by its own keys. */
  lemma ToOneEdges(q: AccountQuery, nodes: seq<Account>, a: Account, db: Database)
    ensures var e := LoadedNode(q, nodes, a, db).edges;
            && e.loadedTypes == Requested(q)
            && e.proxy == (if q.withProxy.None? then None
                           else HandedProxy(q.withProxy.value, KeysOf(ProxyKey, nodes), a.row.proxyID, db))
            && e.parent == if q.withParent.None? then None
                           else HandedParent(q.withParent.value, KeysOf(ParentKey, nodes), a.row.parentAccountID, db)
  {
  }

  /** The proxy edge of a loaded node. */
  lemma LoadedProxy(q: AccountQuery, rows: seq<AccountRow>, i: nat, db: Database)
    requires i < |rows|
    ensures var e := Loaded(q, rows, db)[i].edges;
            && (Proxy in e.loadedTypes <==> q.withProxy.Some?)
            && e.proxy == if q.withProxy.None? then None
                          else HandedProxy(q.withProxy.value, KeysOf(ProxyKey, FreshNodes(q, rows)),
                                           rows[i].proxyID, db)
  {
    LoadedAt(q, rows, i, db);
    ToOneEdges(q, FreshNodes(q, rows), Fresh(q, rows[i]), db);
    RequestedMeaning(q);
    KeysAreSelected(q);
  }

  /** The entity iff requested and returned, NotFound iff requested and not returned, NotLoaded iff not requested. */
  lemma ProxyTrichotomy(q: AccountQuery, rows: seq<AccountRow>, i: nat, db: Database)
    requires ValidDatabase(db) && i < |rows|
    ensures var got := ProxyOrErr(Loaded(q, rows, db)[i].edges);
            var ids := KeysOf(ProxyKey, FreshNodes(q, rows));
            && (got == Err(NotLoaded(Proxy)) <==> q.withProxy.None?)
            && (got == Err(NotFound(Proxy)) <==>
                  q.withProxy.Some? && forall p :: !IsProxyOf(q.withProxy.value, ids, rows[i], db, p))
            && (forall p :: got == Ok(p) <==> q.withProxy.Some? && IsProxyOf(q.withProxy.value, ids, rows[i], db, p))
  {
    LoadedProxy(q, rows, i, db);
    if q.withProxy.Some? && rows[i].proxyID.Some? {
      var e, k: Id, ids := q.withProxy.value, rows[i].proxyID.value, KeysOf(ProxyKey, FreshNodes(q, rows));
      var returned := LeafRows(e, ProxyId, ids, db.proxies(e.order));
      ProxyIsUnique(e, db, ids, k);
      forall p ensures First(WithKey(ProxyId, k, returned)) == Some(p) <==> IsProxyOf(e, ids, rows[i], db, p) {
        OnlyWithKey(ProxyId, k, returned, p);
      }
    }
  }

  /** The stored row that the account's key names, if the query keeps it. */
  ghost predicate StoredProxy(q: LeafQuery<ProxyRow>, r: AccountRow, db: Database, p: ProxyRow) {
    p in db.proxies(q.order) && q.keep(p) && r.proxyID == Some(p.id)
  }

  /** Without a window on the proxy query the stored rows decide. */
  lemma StoredProxyDecides(q: AccountQuery, rows: seq<AccountRow>, i: nat, db: Database)
    requires ValidDatabase(db) && i < |rows| && q.withProxy.Some?
    requires NoWindow(q.withProxy.value.limit, q.withProxy.value.offset)
    ensures var got := ProxyOrErr(Loaded(q, rows, db)[i].edges);
            && (got == Err(NotFound(Proxy)) <==> forall p :: !StoredProxy(q.withProxy.value, rows[i], db, p))
            && (forall p :: got == Ok(p) <==> StoredProxy(q.withProxy.value, rows[i], db, p))
  {
    var e, nodes := q.withProxy.value, FreshNodes(q, rows);
    var ids := KeysOf(ProxyKey, nodes);
    ProxyTrichotomy(q, rows, i, db);
    KeysAreSelected(q);
    if rows[i].proxyID.Some? {
      KeyIsAsked(ProxyKey, nodes, i, rows[i].proxyID.value);
    }
    forall p ensures IsProxyOf(e, ids, rows[i], db, p) <==> StoredProxy(e, rows[i], db, p) {
      ReturnedProxies(e, ids, db, p);
    }
  }

  lemma LoadedParent(q: AccountQuery, rows: seq<AccountRow>, i: nat, db: Database)
    requires i < |rows|
    ensures var e := Loaded(q, rows, db)[i].edges;
            && (Parent in e.loadedTypes <==> q.withParent.Some?)
            && e.parent == if q.withParent.None? then None
                           else HandedParent(q.withParent.value, KeysOf(ParentKey, FreshNodes(q, rows)),
                                             rows[i].parentAccountID, db)
  {
    LoadedAt(q, rows, i, db);
    ToOneEdges(q, FreshNodes(q, rows), Fresh(q, rows[i]), db);
    RequestedMeaning(q);
    KeysAreSelected(q);
  }

  /** The parent found in the batch under one key. */
  lemma ParentInBatch(q: AccountQuery, rows: seq<AccountRow>, k: Id, db: Database)
    requires DistinctRows(rows)
    ensures var found := First(WithKey(AccountId, k, Loaded(q, rows, db)));
            && (found.None? <==> forall p :: p in rows ==> p.id != k)
            && (forall j :: 0 <= j < |rows| && rows[j].id == k ==> found == Some(Loaded(q, rows, db)[j]))
  {
    var ns := Loaded(q, rows, db);
    LoadedRows(q, rows, db);
    ParentIsUnique(q, db, rows, k);
    WithKeyMeaning(AccountId, k, ns);
    var found := WithKey(AccountId, k, ns);
    forall j | 0 <= j < |rows| && rows[j].id == k ensures First(found) == Some(ns[j]) {
      OnlyWithKey(AccountId, k, ns, ns[j]);
    }
    if found != [] {
      assert found[0] in found;
      var j :| 0 <= j < |ns| && ns[j] == found[0];
      assert rows[j] in rows && rows[j].id == k;
    }
  }

  /** What a node with this key finds in the batch. */
  lemma HandedParentMeaning(q: AccountQuery, ids: seq<Id>, r: AccountRow, db: Database)
    requires ValidDatabase(db)
    ensures var found := HandedParent(q, ids, r.parentAccountID, db);
            var returned := QueryRows(q, [IDIn(ids)], db);
            && (found.None? <==> forall p :: !IsParentOf(q, ids, r, db, p))
            && (forall j :: 0 <= j < |returned| && r.parentAccountID == Some(returned[j].id) ==>
                              found == Some(Loaded(q, returned, db)[j]))
  {
    var key, returned := r.parentAccountID, QueryRows(q, [IDIn(ids)], db);
    if key.Some? {
      var k: Id := key.value;
      QueryRowsDistinct(q, [IDIn(ids)], db);
      ParentInBatch(q, returned, k, db);
      assert HandedParent(q, ids, key, db) == First(WithKey(AccountId, k, Loaded(q, returned, db)));
      forall p ensures IsParentOf(q, ids, r, db, p) <==> p in returned && p.id == k {
      }
    }
  }

  /** The same for the parent; the entity is the loaded node of the returned row. */
  lemma ParentTrichotomy(q: AccountQuery, rows: seq<AccountRow>, i: nat, db: Database)
    requires ValidDatabase(db) && i < |rows|
    ensures var got := ParentOrErr(Loaded(q, rows, db)[i].edges);
            var ids := KeysOf(ParentKey, FreshNodes(q, rows));
            && (got == Err(NotLoaded(Parent)) <==> q.withParent.None?)
            && (got == Err(NotFound(Parent)) <==>
                  q.withParent.Some? && forall p :: !IsParentOf(q.withParent.value, ids, rows[i], db, p))
            && (q.withParent.Some? ==>
                  var returned := QueryRows(q.withParent.value, [IDIn(ids)], db);
                  forall j :: 0 <= j < |returned| && rows[i].parentAccountID == Some(returned[j].id) ==>
                                got == Ok(Loaded(q.withParent.value, returned, db)[j]))
  {
    LoadedParent(q, rows, i, db);
    if q.withParent.Some? {
      HandedParentMeaning(q.withParent.value, KeysOf(ParentKey, FreshNodes(q, rows)), rows[i], db);
    }
  }

  ghost predicate StoredParent(q: AccountQuery, r: AccountRow, db: Database, p: AccountRow) {
    p in db.accounts(q.order) && Satisfies(q.predicates, p) && r.parentAccountID == Some(p.id)
  }

  lemma {:induction false} SelectHas(ps: seq<AccountPred>, table: seq<AccountRow>, r: AccountRow)
    requires r in table && Satisfies(ps, r)
    ensures r in Select(ps, table)
  {
    if r != Last(table) {
      SelectHas(ps, Init(table), r);
    }
  }

  /** Without a window the parent query returns every stored row that satisfies it and was asked for. */
  lemma ReturnedParents(q: AccountQuery, ids: seq<Id>, db: Database, p: AccountRow)
    requires NoWindow(q.limit, q.offset)
    ensures p in QueryRows(q, [IDIn(ids)], db) <==>
            p in db.accounts(q.order) && Satisfies(q.predicates, p) && p.id in ids
  {
    var ps, table := q.predicates + [IDIn(ids)], db.accounts(q.order);
    SelectMeaning(ps, table);
    WholeWindow(q.limit, Select(ps, table), |Select(ps, table)|);
    SatisfiesSnoc(q.predicates, IDIn(ids), p);
    if p in table && Satisfies(ps, p) {
      SelectHas(ps, table, p);
    }
  }

  /** Without a window on the parent query the stored rows decide. */
  lemma StoredParentDecides(q: AccountQuery, rows: seq<AccountRow>, i: nat, db: Database)
    requires ValidDatabase(db) && i < |rows| && q.withParent.Some?
    requires NoWindow(q.withParent.value.limit, q.withParent.value.offset)
    ensures ParentOrErr(Loaded(q, rows, db)[i].edges) == Err(NotFound(Parent)) <==>
            forall p :: !StoredParent(q.withParent.value, rows[i], db, p)
  {
    var e, nodes := q.withParent.value, FreshNodes(q, rows);
    var ids := KeysOf(ParentKey, nodes);
    ParentTrichotomy(q, rows, i, db);
    KeysAreSelected(q);
    if rows[i].parentAccountID.Some? {
      KeyIsAsked(ParentKey, nodes, i, rows[i].parentAccountID.value);
    }
    forall p ensures IsParentOf(e, ids, rows[i], db, p) <==> StoredParent(e, rows[i], db, p) {
      ReturnedParents(e, ids, db, p);
    }
  }

  /** The column loop of querySpec. */
  method BuildColumns(q: AccountQuery) returns (cols: seq<Column>)
    requires q.fields != []
    ensures cols == SpecColumns(q)
  {
    cols := [ColID];
    for i := 0 to |q.fields|
      invariant cols == [ColID] + OtherThanID(q.fields[..i])
    {
      assert Init(q.fields[..i + 1]) == q.fields[..i];
      if q.fields[i] != ColID {
        cols := cols + [q.fields[i]];
      }
    }
    assert q.fields[..|q.fields|] == q.fields;
    if q.withProxy.Some? && ColProxyID !in cols {
      cols := cols + [ColProxyID];
    }
    if q.withParent.Some? && ColParentAccountID !in cols {
      cols := cols + [ColParentAccountID];
    }
  }

  /** The identifier comes first and once, every selected field is there, and so are the keys the edges need. */
  lemma ColumnsMeaning(q: AccountQuery)
    ensures SpecColumns(q)[0] == ColID && ColID !in SpecColumns(q)[1..]
    ensures forall c :: c in SpecColumns(q) <==>
              || c == ColID || c in q.fields
              || (c == ColProxyID && q.withProxy.Some?) || (c == ColParentAccountID && q.withParent.Some?)
  {
    OtherThanIDMeaning(q.fields);
    var cols := [ColID] + OtherThanID(q.fields);
    assert cols[1..] == OtherThanID(q.fields);
    var cols' := if q.withProxy.Some? then AddColumnOnce(cols, ColProxyID) else cols;
    assert cols'[1..] == cols[1..] || cols'[1..] == cols[1..] + [ColProxyID];
    var cols'' := SpecColumns(q);
    assert cols''[1..] == cols'[1..] || cols''[1..] == cols'[1..] + [ColParentAccountID];
  }

  /******* To-one loading partitions the nodes *******/

  /** Every node with a key sits in its own bucket once and in no other; a node without one sits nowhere. */
  lemma BucketsPartition(key: AccountRow -> Option<Id>, nodes: seq<Account>, buckets: map<Id, seq<nat>>)
    requires BucketsOf(key, nodes, buckets)
    ensures forall i, k :: 0 <= i < |nodes| && k in buckets ==> (i in buckets[k] <==> key(nodes[i].row) == Some(k))
    ensures forall i :: 0 <= i < |nodes| && key(nodes[i].row).Some? ==> key(nodes[i].row).value in buckets
    ensures forall k :: k in buckets ==> buckets[k] != [] && NoDuplicates(buckets[k])
  {
    KeysMeaning(key, nodes);
    forall k | k in buckets
      ensures buckets[k] != [] && NoDuplicates(buckets[k])
      ensures forall i :: 0 <= i < |nodes| ==> (i in buckets[k] <==> key(nodes[i].row) == Some(k))
    {
      BucketMeaning(key, nodes, k);
      var i :| 0 <= i < |nodes| && key(nodes[i].row) == Some(k);
      assert i in IndicesWith(key, nodes, k);
    }
    forall i | 0 <= i < |nodes| && key(nodes[i].row).Some? ensures key(nodes[i].row).value in buckets {
      KeyIsAsked(key, nodes, i, key(nodes[i].row).value);
    }
  }

  /******* To-many loading conserves rows *******/

  /** The lengths of the lists of the first `m` nodes, added up. */
  ghost function Total<E>(nodes: seq<Account>, fk: E -> Option<Id>, neighbours: seq<E>, m: nat): nat
    requires m <= |nodes|
  {
    if m == 0 then 0 else Total(nodes, fk, neighbours, m - 1) + |Attached(nodes, m - 1, fk, neighbours)|
  }

  lemma {:induction false} LastWithId(nodes: seq<Account>, i: nat) returns (p: nat)
    requires i < |nodes|
    ensures IsLastWithId(nodes, p) && nodes[p].row.id == nodes[i].row.id
    decreases |nodes| - i
  {
    if IsLastWithId(nodes, i) {
      p := i;
    } else {
      var j :| i < j < |nodes| && nodes[j].row.id == nodes[i].row.id;
      p := LastWithId(nodes, j);
    }
  }

  lemma {:induction false} TotalStep<E(!new)>(nodes: seq<Account>, fk: E -> Option<Id>, s: seq<E>, n: E, p: nat, m: nat)
    requires m <= |nodes| && IsLastWithId(nodes, p) && fk(n) == Some(nodes[p].row.id)
    ensures Total(nodes, fk, s + [n], m) == Total(nodes, fk, s, m) + if p < m then 1 else 0
  {
    if m != 0 {
      TotalStep(nodes, fk, s, n, p, m - 1);
      assert Init(s + [n]) == s;
    }
  }

  lemma {:induction false} TotalNothing<E(!new)>(nodes: seq<Account>, fk: E -> Option<Id>, m: nat)
    requires m <= |nodes|
    ensures Total(nodes, fk, [], m) == 0
  {
    if m != 0 {
      TotalNothing(nodes, fk, m - 1);
    }
  }

  /** No row of the batch is lost or handed out twice, even when identifiers repeat among the nodes. */
  lemma {:induction false} RowsConserved<E(!new)>(nodes: seq<Account>, fk: E -> Option<Id>, neighbours: seq<E>)
    requires forall n :: n in neighbours ==> exists i :: 0 <= i < |nodes| && fk(n) == Some(nodes[i].row.id)
    ensures Total(nodes, fk, neighbours, |nodes|) == |neighbours|
  {
    if neighbours == [] {
      TotalNothing(nodes, fk, |nodes|);
    } else {
      var rest, n := Init(neighbours), Last(neighbours);
      assert rest + [n] == neighbours && n in neighbours;
      RowsConserved(nodes, fk, rest);
      var i :| 0 <= i < |nodes| && fk(n) == Some(nodes[i].row.id);
      var p := LastWithId(nodes, i);
      TotalStep(nodes, fk, rest, n, p, |nodes|);
    }
  }

  /** The batched lists are the per-account ones for every batch exactly when no identifier repeats. */
  lemma AgreesIffDistinct(nodes: seq<Account>)
    ensures DistinctIds(nodes) <==>
            forall ns: seq<UsageLogRow>, i ::
              0 <= i < |nodes| ==>
                Attached(nodes, i, UsageLogAccount, ns) == WithKey(UsageLogAccount, nodes[i].row.id, ns)
  {
    if !DistinctIds(nodes) {
      var i, j :| 0 <= i < j < |nodes| && nodes[i].row.id == nodes[j].row.id;
      var u := UsageLogRow(0, nodes[i].row.id, map[]);
      assert Last([u]) == u;
      assert Attached(nodes, i, UsageLogAccount, [u]) == [];
      assert WithKey(UsageLogAccount, nodes[i].row.id, [u]) != [];
    } else {
      assert forall i :: 0 <= i < |nodes| ==> IsLastWithId(nodes, i);
    }
  }

  /******* A Limit or an Offset on the children query *******/

  const NO_EDGES := AccountQuery([], 0, [], None, 0, None, None, None, None, None, None)

  function Row(id: Id, parent: Option<Id>): AccountRow { AccountRow(id, None, parent, map[]) }

  /** Accounts 1 and 2 with one child each. */
  const FAMILY: seq<AccountRow> := [Row(1, None), Row(2, None), Row(3, Some(1)), Row(4, Some(2))]

  const FAMILY_DB := Database(o => FAMILY, o => [], o => [], o => [], o => [])

  lemma FamilyChildren(q: AccountQuery)
    requires q.predicates == []
    ensures Select(q.predicates + [ParentIn([1, 2])], FAMILY) == [FAMILY[2], FAMILY[3]]
    ensures Select(q.predicates + [ParentIn([2])], FAMILY) == [FAMILY[3]]
  {
    var t := FAMILY;
    var a, b := q.predicates + [ParentIn([1, 2])], q.predicates + [ParentIn([2])];
    assert t[..3] == Init(t) && t[..2] == Init(t[..3]) && t[..1] == Init(t[..2]) && t[..0] == Init(t[..1]);
    assert Last(t) == t[3] && Last(t[..3]) == t[2] && Last(t[..2]) == t[1] && Last(t[..1]) == t[0];
    forall r: AccountRow
      ensures Satisfies(a, r) <==> Holds(ParentIn([1, 2]), r)
      ensures Satisfies(b, r) <==> Holds(ParentIn([2]), r)
    {
      SatisfiesSnoc([], ParentIn([1, 2]), r);
      SatisfiesSnoc([], ParentIn([2]), r);
    }
    assert [] + [ParentIn([1, 2])] == a && [] + [ParentIn([2])] == b;
    assert !Satisfies(a, t[0]) && !Satisfies(a, t[1]) && Satisfies(a, t[2]) && Satisfies(a, t[3]);
    assert !Satisfies(b, t[0]) && !Satisfies(b, t[1]) && !Satisfies(b, t[2]) && Satisfies(b, t[3]);
    assert Select(a, t[..1]) == Select(b, t[..1]) == [];
    assert Select(a, t[..2]) == Select(b, t[..2]) == [];
    assert Select(a, t[..3]) == [t[2]] && Select(b, t[..3]) == [];
  }

  /** What the children load hands account 2, and what its own query returns, for a query without edges. */
  lemma SecondAccount(q: AccountQuery)
    requires q.predicates == [] && q == NO_EDGES.(limit := q.limit, offset := q.offset)
    ensures HandedChildren(q, [1, 2], 2, FAMILY_DB) ==
            NodesOf(q, WithKey(ParentKey, 2, Window(q.limit, q.offset, [FAMILY[2], FAMILY[3]])), FAMILY_DB)
    ensures ChildrenOf(q, 2, FAMILY_DB) == NodesOf(q, Window(q.limit, q.offset, [FAMILY[3]]), FAMILY_DB)
  {
    FamilyChildren(q);
    var cut := QueryRows(q, [ParentIn([1, 2])], FAMILY_DB);
    assert Keyed(q) == q;
    KeysAreSelected(q);
    ChildrenKey(q);
    NodesWithKey(CHILDREN, q, cut, 2, FAMILY_DB);
    FamilyIsValid();
    LoadedWithoutEdges(q, cut, FAMILY_DB);
  }

  lemma FamilyIsValid()
    ensures ValidDatabase(FAMILY_DB)
  {
  }

  lemma LoadedWithoutEdges(q: AccountQuery, rows: seq<AccountRow>, db: Database)
    requires ValidDatabase(db) && q == NO_EDGES.(limit := q.limit, offset := q.offset)
    ensures Loaded(q, rows, db) == NodesOf(q, rows, db)
  {
    assert EdgesUnlimited(q);
    UnlimitedIsHarmless(q, rows, db);
    TreeIff(q, rows, db);
  }

  /** With Limit(1) the second account loses its only child. */
  lemma LimitLosesAChild()
    ensures var q := NO_EDGES.(limit := Some(1));
            HandedChildren(q, [1, 2], 2, FAMILY_DB) == [] && |ChildrenOf(q, 2, FAMILY_DB)| == 1
  {
    var q := NO_EDGES.(limit := Some(1));
    SecondAccount(q);
    var cut := Window(q.limit, q.offset, [FAMILY[2], FAMILY[3]]);
    assert cut == [FAMILY[2]];
    WithKeyNone(ParentKey, 2, cut);
  }

  /** With Offset(1) it gets the child that its own query skips. */
  lemma OffsetGivesASkippedChild()
    ensures var q := NO_EDGES.(offset := 1);
            |HandedChildren(q, [1, 2], 2, FAMILY_DB)| == 1 && ChildrenOf(q, 2, FAMILY_DB) == []
  {
    var q := NO_EDGES.(offset := 1);
    SecondAccount(q);
    var cut := Window(q.limit, q.offset, [FAMILY[2], FAMILY[3]]);
    assert cut == [FAMILY[3]];
    WithKeyAll(ParentKey, 2, cut);
  }
}
