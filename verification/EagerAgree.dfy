/**
 When the batched run returns what one query per account and per edge returns: the exact condition, for whole query
 trees with limits and offsets anywhere.
 */
module EagerAgree {
  import opened Prelude
  import opened EagerModel
  import opened EagerLoad
  import opened EagerSplit
  import opened EagerBatch
  import opened EagerWindow
  import opened EagerJoin
  import opened EagerSqlAll

  /******* Edges without edges of their own *******/

  /** One key of an edge table: the share of the batch is the key's own query exactly when the window agrees on it. */
  lemma LeafAgreesAt<R(!new)>(q: LeafQuery<R>, key: R -> Option<Id>, ids: seq<Id>, table: seq<R>, k: Id)
    requires k in ids
    ensures WithKey(key, k, LeafRows(q, key, ids, table)) == LeafRows(q, key, [k], table) <==>
            Agrees(q.limit, q.offset, key, Batch(q.keep, key, ids, table), k)
  {
    SplitBatch(q.keep, key, ids, k, table);
  }

  lemma LeafIff<R(!new), K(!new)>(q: LeafQuery<R>, key: R -> Option<Id>, ids: seq<Id>, table: seq<R>, id: R -> K)
    requires DistinctBy(id, table)
    ensures (forall k :: k in ids ==>
               WithKey(key, k, LeafRows(q, key, ids, table)) == LeafRows(q, key, [k], table)) <==>
            Harmless(q.limit, q.offset, key, Batch(q.keep, key, ids, table))
  {
    var rows := Batch(q.keep, key, ids, table);
    BatchMeaning(q.keep, key, ids, table);
    BatchKeepsDistinct(q.keep, key, ids, table, id);
    assert forall i :: 0 <= i < |rows| ==> rows[i] in rows;
    assert forall i, j :: 0 <= i < j < |rows| ==> id(rows[i]) != id(rows[j]);
    WindowIff(q.limit, q.offset, key, rows);
    forall k | k in ids
      ensures WithKey(key, k, LeafRows(q, key, ids, table)) == LeafRows(q, key, [k], table) <==>
              Agrees(q.limit, q.offset, key, rows, k)
    {
      LeafAgreesAt(q, key, ids, table, k);
    }
    forall k | k !in ids ensures Agrees(q.limit, q.offset, key, rows, k) {
      AbsentKeyAgrees(q.limit, q.offset, key, rows, k);
    }
  }

  ghost predicate LogsAgree(q: LeafQuery<UsageLogRow>, ids: seq<Id>, db: Database) {
    forall k :: k in ids ==> HandedLogs(q, ids, k, db) == UsageLogsOf(q, k, db)
  }

  lemma LogsIff(q: LeafQuery<UsageLogRow>, ids: seq<Id>, db: Database)
    requires ValidDatabase(db)
    ensures LogsAgree(q, ids, db) <==>
            Harmless(q.limit, q.offset, UsageLogAccount, Batch(q.keep, UsageLogAccount, ids, db.usageLogs(q.order)))
  {
    var table := db.usageLogs(q.order);
    LeafIff(q, UsageLogAccount, ids, table, (u: UsageLogRow) => u.id);
    forall k | k in ids
      ensures HandedLogs(q, ids, k, db) == WithKey(UsageLogAccount, k, LeafRows(q, UsageLogAccount, ids, table))
    {
    }
  }

  ghost predicate LinksAgree(q: LeafQuery<AccountGroupRow>, ids: seq<Id>, db: Database) {
    forall k :: k in ids ==> HandedLinks(q, ids, k, db) == LinksOf(q, k, db)
  }

  lemma LinksIff(q: LeafQuery<AccountGroupRow>, ids: seq<Id>, db: Database)
    requires ValidDatabase(db)
    ensures LinksAgree(q, ids, db) <==>
            Harmless(q.limit, q.offset, LinkAccount, Batch(q.keep, LinkAccount, ids, db.accountGroups(q.order)))
  {
    var table := db.accountGroups(q.order);
    assert DistinctLinks(table);
    LeafIff(q, LinkAccount, ids, table, (l: AccountGroupRow) => (l.accountID, l.groupID));
    forall k | k in ids
      ensures HandedLinks(q, ids, k, db) == WithKey(LinkAccount, k, LeafRows(q, LinkAccount, ids, table))
    {
    }
  }

  ghost predicate ProxiesAgree(q: LeafQuery<ProxyRow>, ids: seq<Id>, db: Database) {
    forall k :: k in ids ==> HandedProxy(q, ids, Some(k), db) == ProxyOf(q, Some(k), db)
  }

  /** Lists of at most one element are equal when their first elements are. */
  lemma FirstDecides<T>(a: seq<T>, b: seq<T>)
    requires |a| <= 1 && |b| <= 1
    ensures First(a) == First(b) <==> a == b
  {
  }

  lemma ProxyAgreesAt(q: LeafQuery<ProxyRow>, ids: seq<Id>, db: Database, k: Id)
    requires ValidDatabase(db)
    ensures var table := db.proxies(q.order);
            HandedProxy(q, ids, Some(k), db) == ProxyOf(q, Some(k), db) <==>
            WithKey(ProxyId, k, LeafRows(q, ProxyId, ids, table)) == LeafRows(q, ProxyId, [k], table)
  {
    var table := db.proxies(q.order);
    ProxyIsUnique(q, db, ids, k);
    ProxyIsUnique(q, db, [k], k);
    BatchMeaning(q.keep, ProxyId, [k], table);
    WindowMembers(q.limit, q.offset, Batch(q.keep, ProxyId, [k], table));
    var one := LeafRows(q, ProxyId, [k], table);
    assert forall i :: 0 <= i < |one| ==> one[i] in one;
    WithKeyAll(ProxyId, k, one);
    FirstDecides(WithKey(ProxyId, k, LeafRows(q, ProxyId, ids, table)), one);
  }

  lemma ProxiesIff(q: LeafQuery<ProxyRow>, ids: seq<Id>, db: Database)
    requires ValidDatabase(db)
    ensures ProxiesAgree(q, ids, db) <==>
            Harmless(q.limit, q.offset, ProxyId, Batch(q.keep, ProxyId, ids, db.proxies(q.order)))
  {
    LeafIff(q, ProxyId, ids, db.proxies(q.order), ProxyId);
    forall k | k in ids
      ensures var table := db.proxies(q.order);
              HandedProxy(q, ids, Some(k), db) == ProxyOf(q, Some(k), db) <==>
              WithKey(ProxyId, k, LeafRows(q, ProxyId, ids, table)) == LeafRows(q, ProxyId, [k], table)
    {
      ProxyAgreesAt(q, ids, db, k);
    }
  }

  /******* Edges that lead to accounts *******/

  ghost function Rows(ns: seq<Account>): seq<AccountRow> {
    seq(|ns|, i requires 0 <= i < |ns| => ns[i].row)
  }

  ghost function Decoded(q: AccountQuery, rows: seq<AccountRow>): seq<AccountRow> {
    seq(|rows|, i requires 0 <= i < |rows| => Decode(q, rows[i]))
  }

  /** How an account edge is keyed: on the row, on the node, and in the predicates of the batch and of one account. */
  datatype EdgeKey = EdgeKey(
    row: AccountRow -> Option<Id>, node: Account -> Option<Id>, many: seq<Id> -> AccountPred, one: Id -> AccountPred)

  const CHILDREN := EdgeKey(ParentKey, AccountParent, ids => ParentIn(ids), k => ParentIn([k]))
  const PARENT := EdgeKey(RowId, AccountId, ids => IDIn(ids), k => IDIn([k]))

  ghost predicate ProperKey(e: EdgeKey, q: AccountQuery) {
    && (forall a: Account :: e.node(a) == e.row(a.row))
    && (forall r: AccountRow :: e.row(Decode(q, r)) == e.row(r))
    && (forall ids: seq<Id>, r: AccountRow :: Holds(e.many(ids), r) <==> e.row(r).Some? && e.row(r).value in ids)
    && (forall k: Id, r: AccountRow :: Holds(e.one(k), r) <==> e.row(r) == Some(k))
  }

  lemma ChildrenKey(q: AccountQuery)
    requires Selects(q, ColParentAccountID)
    ensures ProperKey(CHILDREN, q)
  {
  }

  lemma ParentKeyed(q: AccountQuery)
    ensures ProperKey(PARENT, q)
  {
  }

  lemma NodesSnoc(q: AccountQuery, rows: seq<AccountRow>, r: AccountRow, db: Database)
    ensures NodesOf(q, rows + [r], db) == NodesOf(q, rows, db) + [Node(q, r, db)]
  {
  }

  lemma {:induction false} NodesWithKey(e: EdgeKey, q: AccountQuery, rows: seq<AccountRow>, k: Id, db: Database)
    requires ProperKey(e, q)
    ensures WithKey(e.node, k, NodesOf(q, rows, db)) == NodesOf(q, WithKey(e.row, k, rows), db)
  {
    if rows != [] {
      var init, r := Init(rows), Last(rows);
      NodesWithKey(e, q, init, k, db);
      assert rows == init + [r];
      NodesSnoc(q, init, r, db);
      var ns := NodesOf(q, init, db);
      assert Init(ns + [Node(q, r, db)]) == ns;
      NodeRow(q, r, db);
      if e.row(r) == Some(k) {
        NodesSnoc(q, WithKey(e.row, k, init), r, db);
      }
    }
  }

  lemma NodeRow(q: AccountQuery, r: AccountRow, db: Database)
    ensures Node(q, r, db).row == Decode(q, r)
  {
  }

  lemma {:induction false} RowsWithKey(e: EdgeKey, q: AccountQuery, ns: seq<Account>, k: Id)
    requires ProperKey(e, q)
    ensures Rows(WithKey(e.node, k, ns)) == WithKey(e.row, k, Rows(ns))
  {
    if ns != [] {
      RowsWithKey(e, q, Init(ns), k);
      assert Rows(ns) == Rows(Init(ns)) + [Last(ns).row];
      assert Init(Rows(ns)) == Rows(Init(ns)) && Last(Rows(ns)) == Last(ns).row;
    }
  }

  lemma {:induction false} DecodedWithKey(e: EdgeKey, q: AccountQuery, rows: seq<AccountRow>, k: Id)
    requires ProperKey(e, q)
    ensures WithKey(e.row, k, Decoded(q, rows)) == Decoded(q, WithKey(e.row, k, rows))
  {
    if rows != [] {
      DecodedWithKey(e, q, Init(rows), k);
      var d := Decoded(q, rows);
      assert Init(d) == Decoded(q, Init(rows)) && Last(d) == Decode(q, Last(rows));
    }
  }

  /** Rows of one table are told apart by the identifiers that decoding keeps. */
  lemma DecodedInjective(q: AccountQuery, a: seq<AccountRow>, b: seq<AccountRow>, table: seq<AccountRow>)
    requires DistinctRows(table) && (forall r :: r in a || r in b ==> r in table)
    requires Decoded(q, a) == Decoded(q, b)
    ensures a == b
  {
    assert |a| == |Decoded(q, a)| == |b|;
    forall i | 0 <= i < |a| ensures a[i] == b[i] {
      assert Decoded(q, a)[i].id == Decoded(q, b)[i].id;
      assert a[i] in a && b[i] in b;
      var x :| 0 <= x < |table| && table[x] == a[i];
      var y :| 0 <= y < |table| && table[y] == b[i];
    }
  }

  /** Lists with the same keys in the same places are equal when they are equal key by key. */
  lemma {:induction false} EqualByKeys<E(!new)>(fk: E -> Option<Id>, a: seq<E>, b: seq<E>)
    requires |a| == |b| && AllKeyed(fk, a) && forall i :: 0 <= i < |a| ==> fk(a[i]) == fk(b[i])
    requires forall k :: WithKey(fk, k, a) == WithKey(fk, k, b)
    ensures a == b
  {
    if a != [] {
      var k: Id := fk(Last(a)).value;
      assert WithKey(fk, k, a) == WithKey(fk, k, Init(a)) + [Last(a)];
      assert WithKey(fk, k, b) == WithKey(fk, k, Init(b)) + [Last(b)];
      assert Last(WithKey(fk, k, a)) == Last(WithKey(fk, k, b));
      forall k' ensures WithKey(fk, k', Init(a)) == WithKey(fk, k', Init(b)) {
        if k' == k {
          assert WithKey(fk, k, Init(a)) == Init(WithKey(fk, k, a));
          assert WithKey(fk, k, Init(b)) == Init(WithKey(fk, k, b));
        } else {
          assert WithKey(fk, k', a) == WithKey(fk, k', b);
        }
      }
      EqualByKeys(fk, Init(a), Init(b));
      assert a == Init(a) + [Last(a)] && b == Init(b) + [Last(b)];
    }
  }

  /** The rows the edge query returns for all nodes, before and after LIMIT and OFFSET. */
  ghost function EdgeRows(e: EdgeKey, q: AccountQuery, ids: seq<Id>, db: Database): seq<AccountRow> {
    Select(q.predicates + [e.many(ids)], db.accounts(q.order))
  }

  ghost function CutRows(e: EdgeKey, q: AccountQuery, ids: seq<Id>, db: Database): seq<AccountRow> {
    QueryRows(q, [e.many(ids)], db)
  }

  /** One key: the share of the loaded batch is what the key's own query returns. */
  ghost predicate EdgeAgreesAt(e: EdgeKey, q: AccountQuery, ids: seq<Id>, db: Database, k: Id) {
    WithKey(e.node, k, Loaded(q, CutRows(e, q, ids, db), db)) == Simple(q, [e.one(k)], db)
  }

  ghost predicate EdgeAgrees(e: EdgeKey, q: AccountQuery, ids: seq<Id>, db: Database) {
    forall k :: k in ids ==> EdgeAgreesAt(e, q, ids, db, k)
  }

  lemma EdgeRowsMeaning(e: EdgeKey, q: AccountQuery, ids: seq<Id>, db: Database)
    requires ProperKey(e, q) && ValidDatabase(db)
    ensures var rows := EdgeRows(e, q, ids, db);
            && (forall r :: r in rows ==> r in db.accounts(q.order) && e.row(r).Some? && e.row(r).value in ids)
            && (forall r :: r in CutRows(e, q, ids, db) ==> r in rows)
            && DistinctRows(rows) && NoDuplicates(rows) && AllKeyed(e.row, rows)
  {
    var ps, table := q.predicates + [e.many(ids)], db.accounts(q.order);
    var rows := Select(ps, table);
    SelectMeaning(ps, table);
    DistinctNodes(ps, table);
    forall r | r in rows ensures e.row(r).Some? && e.row(r).value in ids {
      SatisfiesSnoc(q.predicates, e.many(ids), r);
    }
    WindowMembers(q.limit, q.offset, rows);
    assert forall i :: 0 <= i < |rows| ==> rows[i] in rows;
  }

  /** The query of one key returns the key's rows of the batch, cut on their own. */
  lemma SimpleOfKey(e: EdgeKey, q: AccountQuery, ids: seq<Id>, db: Database, k: Id)
    requires ProperKey(e, q) && k in ids
    ensures Simple(q, [e.one(k)], db) ==
            NodesOf(q, Window(q.limit, q.offset, WithKey(e.row, k, EdgeRows(e, q, ids, db))), db)
  {
    var many, one := e.many(ids), e.one(k);
    forall r: AccountRow ensures Holds(many, r) && e.row(r) == Some(k) <==> Holds(one, r) {
      assert Holds(e.many(ids), r) <==> e.row(r).Some? && e.row(r).value in ids;
      assert Holds(e.one(k), r) <==> e.row(r) == Some(k);
    }
    SplitSelect(q.predicates, many, one, e.row, k, db.accounts(q.order));
  }

  lemma HarmlessEdgeAgrees(e: EdgeKey, q: AccountQuery, ids: seq<Id>, db: Database, k: Id)
    requires ProperKey(e, q) && ValidDatabase(db) && k in ids
    requires Harmless(q.limit, q.offset, e.row, EdgeRows(e, q, ids, db))
    requires Loaded(q, CutRows(e, q, ids, db), db) == NodesOf(q, CutRows(e, q, ids, db), db)
    ensures EdgeAgreesAt(e, q, ids, db, k)
  {
    var rows, cut := EdgeRows(e, q, ids, db), CutRows(e, q, ids, db);
    HarmlessAgrees(q.limit, q.offset, e.row, rows, k);
    NodesWithKey(e, q, cut, k, db);
    SimpleOfKey(e, q, ids, db, k);
  }

  /** Agreement on the loaded nodes is agreement on the rows they come from. */
  lemma AgreeingEdgeWindow(e: EdgeKey, q: AccountQuery, ids: seq<Id>, db: Database, k: Id)
    requires ProperKey(e, q) && ValidDatabase(db) && k in ids && EdgeAgreesAt(e, q, ids, db, k)
    ensures Agrees(q.limit, q.offset, e.row, EdgeRows(e, q, ids, db), k)
  {
    var rows, cut := EdgeRows(e, q, ids, db), CutRows(e, q, ids, db);
    var own := Window(q.limit, q.offset, WithKey(e.row, k, rows));
    SimpleOfKey(e, q, ids, db, k);
    LoadedRows(q, cut, db);
    assert Rows(Loaded(q, cut, db)) == Decoded(q, cut);
    assert Rows(NodesOf(q, own, db)) == Decoded(q, own) by {
      forall i | 0 <= i < |own| ensures NodesOf(q, own, db)[i].row == Decode(q, own[i]) {
        NodeRow(q, own[i], db);
      }
    }
    RowsWithKey(e, q, Loaded(q, cut, db), k);
    DecodedWithKey(e, q, cut, k);
    EdgeRowsMeaning(e, q, ids, db);
    WithKeyMeaning(e.row, k, cut);
    WithKeyMeaning(e.row, k, rows);
    WindowMembers(q.limit, q.offset, WithKey(e.row, k, rows));
    DecodedInjective(q, WithKey(e.row, k, cut), own, rows);
  }

  /** If every key agrees, the whole batch was loaded as one query per account would load it. */
  lemma AgreeingEdgeNodes(e: EdgeKey, q: AccountQuery, ids: seq<Id>, db: Database)
    requires ProperKey(e, q) && ValidDatabase(db) && EdgeAgrees(e, q, ids, db)
    ensures Loaded(q, CutRows(e, q, ids, db), db) == NodesOf(q, CutRows(e, q, ids, db), db)
  {
    var rows, cut := EdgeRows(e, q, ids, db), CutRows(e, q, ids, db);
    var a, b := Loaded(q, cut, db), NodesOf(q, cut, db);
    EdgeRowsMeaning(e, q, ids, db);
    LoadedRows(q, cut, db);
    forall i | 0 <= i < |cut|
      ensures e.node(a[i]) == e.node(b[i]) == e.row(cut[i])
      ensures e.row(cut[i]).Some? && e.row(cut[i]).value in ids
    {
      NodeRow(q, cut[i], db);
      assert cut[i] in cut;
    }
    forall k ensures WithKey(e.node, k, a) == WithKey(e.node, k, b) {
      if k in ids {
        assert EdgeAgreesAt(e, q, ids, db, k);
        AgreeingEdgeWindow(e, q, ids, db, k);
        NodesWithKey(e, q, cut, k, db);
        SimpleOfKey(e, q, ids, db, k);
      } else {
        WithKeyNone(e.node, k, a);
        WithKeyNone(e.node, k, b);
      }
    }
    EqualByKeys(e.node, a, b);
  }

  lemma EdgeIff(e: EdgeKey, q: AccountQuery, ids: seq<Id>, db: Database)
    requires ProperKey(e, q) && ValidDatabase(db)
    ensures EdgeAgrees(e, q, ids, db) <==>
            && Harmless(q.limit, q.offset, e.row, EdgeRows(e, q, ids, db))
            && Loaded(q, CutRows(e, q, ids, db), db) == NodesOf(q, CutRows(e, q, ids, db), db)
  {
    var rows := EdgeRows(e, q, ids, db);
    if EdgeAgrees(e, q, ids, db) {
      AgreeingEdgeNodes(e, q, ids, db);
      EdgeRowsMeaning(e, q, ids, db);
      forall k ensures Agrees(q.limit, q.offset, e.row, rows, k) {
        if k in ids {
          assert EdgeAgreesAt(e, q, ids, db, k);
          AgreeingEdgeWindow(e, q, ids, db, k);
        } else {
          AbsentKeyAgrees(q.limit, q.offset, e.row, rows, k);
        }
      }
      WindowIff(q.limit, q.offset, e.row, rows);
    }
    if Harmless(q.limit, q.offset, e.row, rows) &&
       Loaded(q, CutRows(e, q, ids, db), db) == NodesOf(q, CutRows(e, q, ids, db), db) {
      forall k | k in ids ensures EdgeAgreesAt(e, q, ids, db, k) {
        HarmlessEdgeAgrees(e, q, ids, db, k);
      }
    }
  }

  /******* Whole trees *******/

  /** The parent and the children edge of a level in terms of the general account edge. */
  ghost predicate ParentsAgree(q: AccountQuery, ids: seq<Id>, db: Database) {
    forall k :: k in ids ==> HandedParent(q, ids, Some(k), db) == ParentOf(q, Some(k), db)
  }

  ghost predicate ChildrenAgree(q: AccountQuery, ids: seq<Id>, db: Database) {
    forall k :: k in ids ==> HandedChildren(q, ids, k, db) == ChildrenOf(q, k, db)
  }

  /** An identifier selects at most one row. */
  lemma OwnParentRow(q: AccountQuery, k: Id, db: Database)
    requires ValidDatabase(db)
    ensures |QueryRows(q, [IDIn([k])], db)| <= 1
  {
    var own := QueryRows(q, [IDIn([k])], db);
    QueryRowsDistinct(q, [IDIn([k])], db);
    ParentKeyed(q);
    EdgeRowsMeaning(PARENT, q, [k], db);
    assert own == CutRows(PARENT, q, [k], db);
    assert forall i :: 0 <= i < |own| ==> own[i] in own && own[i].id == k;
    AtMostOneWithKey(RowId, k, own);
    WithKeyAll(RowId, k, own);
  }

  lemma ParentAgreesAt(q: AccountQuery, ids: seq<Id>, db: Database, k: Id)
    requires ValidDatabase(db)
    ensures HandedParent(q, ids, Some(k), db) == ParentOf(q, Some(k), db) <==> EdgeAgreesAt(PARENT, q, ids, db, k)
  {
    var cut, own := QueryRows(q, [IDIn(ids)], db), QueryRows(q, [IDIn([k])], db);
    QueryRowsDistinct(q, [IDIn(ids)], db);
    ParentIsUnique(q, db, cut, k);
    OwnParentRow(q, k, db);
    assert |Simple(q, [IDIn([k])], db)| == |own|;
    FirstDecides(WithKey(AccountId, k, Loaded(q, cut, db)), Simple(q, [IDIn([k])], db));
    var key: Option<Id> := Some(k);
    assert ParentOf(q, key, db) == First(Simple(q, [IDIn([key.value])], db));
  }

  lemma ParentsIff(q: AccountQuery, ids: seq<Id>, db: Database)
    requires ValidDatabase(db)
    ensures ParentsAgree(q, ids, db) <==>
            && Harmless(q.limit, q.offset, RowId, ParentRows(q, ids, db))
            && Loaded(q, QueryRows(q, [IDIn(ids)], db), db) == NodesOf(q, QueryRows(q, [IDIn(ids)], db), db)
  {
    ParentKeyed(q);
    EdgeIff(PARENT, q, ids, db);
    forall k
      ensures HandedParent(q, ids, Some(k), db) == ParentOf(q, Some(k), db) <==> EdgeAgreesAt(PARENT, q, ids, db, k)
    {
      ParentAgreesAt(q, ids, db, k);
    }
  }

  lemma ChildrenIff(q: AccountQuery, ids: seq<Id>, db: Database)
    requires ValidDatabase(db)
    ensures var kq := Keyed(q);
            ChildrenAgree(q, ids, db) <==>
            && Harmless(kq.limit, kq.offset, ParentKey, ChildRows(kq, ids, db))
            && Loaded(kq, QueryRows(kq, [ParentIn(ids)], db), db) == NodesOf(kq, QueryRows(kq, [ParentIn(ids)], db), db)
  {
    KeysAreSelected(q);
    ChildrenKey(Keyed(q));
    EdgeIff(CHILDREN, Keyed(q), ids, db);
    forall k
      ensures HandedChildren(q, ids, k, db) == ChildrenOf(q, k, db) <==> EdgeAgreesAt(CHILDREN, Keyed(q), ids, db, k)
    {
    }
  }

  /** The windows of all edge queries of the tree are harmless on the rows they meet. */
  ghost predicate TreeHarmless(q: AccountQuery, rows: seq<AccountRow>, db: Database)
    decreases Depth(q), 1
  {
    var nodes := FreshNodes(q, rows);
    LeavesHarmless(q, nodes, db) && FamilyHarmless(q, nodes, db)
  }

  ghost predicate LeavesHarmless(q: AccountQuery, nodes: seq<Account>, db: Database) {
    var ids := Ids(nodes);
    && (q.withGroups.Some? ==>
          var e := q.withGroups.value;
          Harmless(e.limit, e.offset, JoinAccount, GroupJoin(e, db, ids)))
    && (q.withProxy.Some? ==>
          var e := q.withProxy.value;
          Harmless(e.limit, e.offset, ProxyId, Batch(e.keep, ProxyId, KeysOf(ProxyKey, nodes), db.proxies(e.order))))
    && (q.withUsageLogs.Some? ==>
          var e := q.withUsageLogs.value;
          Harmless(e.limit, e.offset, UsageLogAccount, Batch(e.keep, UsageLogAccount, ids, db.usageLogs(e.order))))
    && (q.withAccountGroups.Some? ==>
          var e := q.withAccountGroups.value;
          Harmless(e.limit, e.offset, LinkAccount, Batch(e.keep, LinkAccount, ids, db.accountGroups(e.order))))
  }

  ghost predicate FamilyHarmless(q: AccountQuery, nodes: seq<Account>, db: Database)
    decreases Depth(q), 0
  {
    && (q.withParent.Some? ==>
          var e, ids := q.withParent.value, KeysOf(ParentKey, nodes);
          && Harmless(e.limit, e.offset, RowId, ParentRows(e, ids, db))
          && TreeHarmless(e, QueryRows(e, [IDIn(ids)], db), db))
    && (q.withChildren.Some? ==>
          var e, ids := Keyed(q.withChildren.value), Ids(nodes);
          && Harmless(e.limit, e.offset, ParentKey, ChildRows(e, ids, db))
          && TreeHarmless(e, QueryRows(e, [ParentIn(ids)], db), db))
  }

  /** Edge by edge, the nodes of a level get what one query per account gives them. */
  ghost predicate LeavesAgree(q: AccountQuery, nodes: seq<Account>, db: Database) {
    var ids := Ids(nodes);
    && (q.withGroups.Some? ==> GroupsAgree(q.withGroups.value, ids, db))
    && (q.withProxy.Some? ==> ProxiesAgree(q.withProxy.value, KeysOf(ProxyKey, nodes), db))
    && (q.withUsageLogs.Some? ==> LogsAgree(q.withUsageLogs.value, ids, db))
    && (q.withAccountGroups.Some? ==> LinksAgree(q.withAccountGroups.value, ids, db))
  }

  ghost predicate FamilyAgrees(q: AccountQuery, nodes: seq<Account>, db: Database) {
    && (q.withParent.Some? ==> ParentsAgree(q.withParent.value, KeysOf(ParentKey, nodes), db))
    && (q.withChildren.Some? ==> ChildrenAgree(q.withChildren.value, Ids(nodes), db))
  }

  lemma LeavesIff(q: AccountQuery, nodes: seq<Account>, db: Database)
    requires ValidDatabase(db)
    ensures LeavesAgree(q, nodes, db) <==> LeavesHarmless(q, nodes, db)
  {
    var ids := Ids(nodes);
    if q.withGroups.Some? { GroupsIff(q.withGroups.value, ids, db); }
    if q.withProxy.Some? { ProxiesIff(q.withProxy.value, KeysOf(ProxyKey, nodes), db); }
    if q.withUsageLogs.Some? { LogsIff(q.withUsageLogs.value, ids, db); }
    if q.withAccountGroups.Some? { LinksIff(q.withAccountGroups.value, ids, db); }
  }

  lemma {:induction false} FamilyIff(q: AccountQuery, nodes: seq<Account>, db: Database)
    requires ValidDatabase(db)
    ensures FamilyAgrees(q, nodes, db) <==> FamilyHarmless(q, nodes, db)
    decreases Depth(q), 0
  {
    if q.withParent.Some? {
      var e, ids := q.withParent.value, KeysOf(ParentKey, nodes);
      ParentsIff(e, ids, db);
      TreeIff(e, QueryRows(e, [IDIn(ids)], db), db);
    }
    if q.withChildren.Some? {
      var e, ids := Keyed(q.withChildren.value), Ids(nodes);
      ChildrenIff(q.withChildren.value, ids, db);
      TreeIff(e, QueryRows(e, [ParentIn(ids)], db), db);
    }
  }

  /** One node: edge by edge. */
  ghost predicate LeavesAgreeAt(q: AccountQuery, nodes: seq<Account>, r: AccountRow, db: Database) {
    var ids := Ids(nodes);
    && (q.withGroups.Some? ==>
          HandedGroups(q.withGroups.value, ids, r.id, db) == GroupsOf(q.withGroups.value, r.id, db))
    && (q.withProxy.Some? ==>
          HandedProxy(q.withProxy.value, KeysOf(ProxyKey, nodes), r.proxyID, db) ==
          ProxyOf(q.withProxy.value, r.proxyID, db))
    && (q.withUsageLogs.Some? ==>
          HandedLogs(q.withUsageLogs.value, ids, r.id, db) == UsageLogsOf(q.withUsageLogs.value, r.id, db))
    && (q.withAccountGroups.Some? ==>
          HandedLinks(q.withAccountGroups.value, ids, r.id, db) == LinksOf(q.withAccountGroups.value, r.id, db))
  }

  ghost predicate FamilyAgreesAt(q: AccountQuery, nodes: seq<Account>, r: AccountRow, db: Database) {
    && (q.withParent.Some? ==>
          HandedParent(q.withParent.value, KeysOf(ParentKey, nodes), r.parentAccountID, db) ==
          ParentOf(q.withParent.value, r.parentAccountID, db))
    && (q.withChildren.Some? ==>
          HandedChildren(q.withChildren.value, Ids(nodes), r.id, db) == ChildrenOf(q.withChildren.value, r.id, db))
  }

  lemma NodeIff(q: AccountQuery, nodes: seq<Account>, r: AccountRow, db: Database)
    ensures LoadedNode(q, nodes, Fresh(q, r), db) == Node(q, r, db) <==>
            LeavesAgreeAt(q, nodes, r, db) && FamilyAgreesAt(q, nodes, r, db)
  {
    KeysAreSelected(q);
  }

  lemma RowOfId(rows: seq<AccountRow>, nodes: seq<Account>, q: AccountQuery, k: Id) returns (i: nat)
    requires nodes == FreshNodes(q, rows) && k in Ids(nodes)
    ensures i < |rows| && rows[i].id == k
  {
    i :| 0 <= i < |Ids(nodes)| && Ids(nodes)[i] == k;
  }

  /** The keys a level asks for are the keys of its rows. */
  lemma RowOfKey(key: AccountRow -> Option<Id>, rows: seq<AccountRow>, nodes: seq<Account>, q: AccountQuery, k: Id)
    requires nodes == FreshNodes(q, rows) && forall r :: key(Decode(q, r)) == key(r)
    ensures k in KeysOf(key, nodes) <==> exists i :: 0 <= i < |rows| && key(rows[i]) == Some(k)
  {
    KeysMeaning(key, nodes);
    assert forall i :: 0 <= i < |rows| ==> key(nodes[i].row) == key(rows[i]);
  }

  lemma LeavesEverywhere(q: AccountQuery, rows: seq<AccountRow>, nodes: seq<Account>, db: Database)
    requires nodes == FreshNodes(q, rows)
    ensures LeavesAgree(q, nodes, db) <==> forall i :: 0 <= i < |rows| ==> LeavesAgreeAt(q, nodes, rows[i], db)
  {
    KeysAreSelected(q);
    if LeavesAgree(q, nodes, db) {
      forall i | 0 <= i < |rows| ensures LeavesAgreeAt(q, nodes, rows[i], db) {
        assert Ids(nodes)[i] == rows[i].id;
        if q.withProxy.Some? && rows[i].proxyID.Some? {
          RowOfKey(ProxyKey, rows, nodes, q, rows[i].proxyID.value);
          assert ProxyKey(rows[i]) == Some(rows[i].proxyID.value);
        }
      }
    }
    if forall i :: 0 <= i < |rows| ==> LeavesAgreeAt(q, nodes, rows[i], db) {
      LeavesBack(q, rows, nodes, db);
    }
  }

  lemma LeavesBack(q: AccountQuery, rows: seq<AccountRow>, nodes: seq<Account>, db: Database)
    requires nodes == FreshNodes(q, rows) && forall i :: 0 <= i < |rows| ==> LeavesAgreeAt(q, nodes, rows[i], db)
    ensures LeavesAgree(q, nodes, db)
  {
    KeysAreSelected(q);
    forall k | k in Ids(nodes)
      ensures q.withGroups.Some? ==>
                HandedGroups(q.withGroups.value, Ids(nodes), k, db) == GroupsOf(q.withGroups.value, k, db)
      ensures q.withUsageLogs.Some? ==>
                HandedLogs(q.withUsageLogs.value, Ids(nodes), k, db) == UsageLogsOf(q.withUsageLogs.value, k, db)
      ensures q.withAccountGroups.Some? ==>
                HandedLinks(q.withAccountGroups.value, Ids(nodes), k, db) == LinksOf(q.withAccountGroups.value, k, db)
    {
      var i := RowOfId(rows, nodes, q, k);
      assert LeavesAgreeAt(q, nodes, rows[i], db);
    }
    if q.withProxy.Some? {
      var e, ids := q.withProxy.value, KeysOf(ProxyKey, nodes);
      forall k | k in ids ensures HandedProxy(e, ids, Some(k), db) == ProxyOf(e, Some(k), db) {
        RowOfKey(ProxyKey, rows, nodes, q, k);
        var i :| 0 <= i < |rows| && ProxyKey(rows[i]) == Some(k);
        assert LeavesAgreeAt(q, nodes, rows[i], db);
      }
    }
  }

  lemma FamilyEverywhere(q: AccountQuery, rows: seq<AccountRow>, nodes: seq<Account>, db: Database)
    requires nodes == FreshNodes(q, rows)
    ensures FamilyAgrees(q, nodes, db) <==> forall i :: 0 <= i < |rows| ==> FamilyAgreesAt(q, nodes, rows[i], db)
  {
    KeysAreSelected(q);
    if FamilyAgrees(q, nodes, db) {
      forall i | 0 <= i < |rows| ensures FamilyAgreesAt(q, nodes, rows[i], db) {
        assert Ids(nodes)[i] == rows[i].id;
        if q.withParent.Some? && rows[i].parentAccountID.Some? {
          RowOfKey(ParentKey, rows, nodes, q, rows[i].parentAccountID.value);
          assert ParentKey(rows[i]) == Some(rows[i].parentAccountID.value);
        }
      }
    }
    if forall i :: 0 <= i < |rows| ==> FamilyAgreesAt(q, nodes, rows[i], db) {
      FamilyBack(q, rows, nodes, db);
    }
  }

  lemma FamilyBack(q: AccountQuery, rows: seq<AccountRow>, nodes: seq<Account>, db: Database)
    requires nodes == FreshNodes(q, rows) && forall i :: 0 <= i < |rows| ==> FamilyAgreesAt(q, nodes, rows[i], db)
    ensures FamilyAgrees(q, nodes, db)
  {
    KeysAreSelected(q);
    if q.withParent.Some? {
      var e, ids := q.withParent.value, KeysOf(ParentKey, nodes);
      forall k | k in ids ensures HandedParent(e, ids, Some(k), db) == ParentOf(e, Some(k), db) {
        RowOfKey(ParentKey, rows, nodes, q, k);
        var i :| 0 <= i < |rows| && ParentKey(rows[i]) == Some(k);
        assert FamilyAgreesAt(q, nodes, rows[i], db);
      }
    }
    if q.withChildren.Some? {
      var e, ids := q.withChildren.value, Ids(nodes);
      forall k | k in ids ensures HandedChildren(e, ids, k, db) == ChildrenOf(e, k, db) {
        var i := RowOfId(rows, nodes, q, k);
        assert FamilyAgreesAt(q, nodes, rows[i], db);
      }
    }
  }

  /** A level is loaded as one query per account would load it exactly when every edge agrees. */
  lemma LevelIff(q: AccountQuery, rows: seq<AccountRow>, nodes: seq<Account>, db: Database)
    requires nodes == FreshNodes(q, rows)
    ensures Loaded(q, rows, db) == NodesOf(q, rows, db) <==> LeavesAgree(q, nodes, db) && FamilyAgrees(q, nodes, db)
  {
    var a, b := Loaded(q, rows, db), NodesOf(q, rows, db);
    forall i | 0 <= i < |rows|
      ensures a[i] == b[i] <==> LeavesAgreeAt(q, nodes, rows[i], db) && FamilyAgreesAt(q, nodes, rows[i], db)
    {
      NodeIff(q, nodes, rows[i], db);
    }
    assert a == b <==> forall i :: 0 <= i < |rows| ==> a[i] == b[i];
    LeavesEverywhere(q, rows, nodes, db);
    FamilyEverywhere(q, rows, nodes, db);
  }

  /**
   The batched run and one query per account and per edge return the same, edges at any depth included, if and only if
   the limits and offsets of all edge queries are harmless on the rows they meet.
   */
  lemma {:induction false} TreeIff(q: AccountQuery, rows: seq<AccountRow>, db: Database)
    requires ValidDatabase(db)
    ensures Loaded(q, rows, db) == NodesOf(q, rows, db) <==> TreeHarmless(q, rows, db)
    decreases Depth(q), 1
  {
    var nodes := FreshNodes(q, rows);
    LevelIff(q, rows, nodes, db);
    LeavesIff(q, nodes, db);
    FamilyIff(q, nodes, db);
  }

  /******* The theorem for sqlAll *******/

  /** No edge query of the tree carries a Limit or an Offset; the root may. */
  ghost predicate EdgesUnlimited(q: AccountQuery) {
    && (q.withGroups.Some? ==> NoWindow(q.withGroups.value.limit, q.withGroups.value.offset))
    && (q.withProxy.Some? ==> NoWindow(q.withProxy.value.limit, q.withProxy.value.offset))
    && (q.withUsageLogs.Some? ==> NoWindow(q.withUsageLogs.value.limit, q.withUsageLogs.value.offset))
    && (q.withAccountGroups.Some? ==> NoWindow(q.withAccountGroups.value.limit, q.withAccountGroups.value.offset))
    && (q.withParent.Some? ==>
          NoWindow(q.withParent.value.limit, q.withParent.value.offset) && EdgesUnlimited(q.withParent.value))
    && (q.withChildren.Some? ==>
          NoWindow(q.withChildren.value.limit, q.withChildren.value.offset) && EdgesUnlimited(q.withChildren.value))
  }

  predicate NoWindow(limit: Option<nat>, offset: nat) {
    (limit.None? || limit == Some(0)) && offset == 0
  }

  lemma NoWindowIsHarmless<E(!new)>(limit: Option<nat>, offset: nat, fk: E -> Option<Id>, rows: seq<E>)
    requires NoWindow(limit, offset)
    ensures Harmless(limit, offset, fk, rows)
  {
  }

  lemma UnlimitedLeaves(q: AccountQuery, nodes: seq<Account>, db: Database)
    requires EdgesUnlimited(q)
    ensures LeavesHarmless(q, nodes, db)
  {
  }

  lemma {:induction false} UnlimitedIsHarmless(q: AccountQuery, rows: seq<AccountRow>, db: Database)
    requires EdgesUnlimited(q)
    ensures TreeHarmless(q, rows, db)
    decreases Depth(q)
  {
    var nodes := FreshNodes(q, rows);
    UnlimitedLeaves(q, nodes, db);
    if q.withParent.Some? {
      var e, ids := q.withParent.value, KeysOf(ParentKey, nodes);
      NoWindowIsHarmless(e.limit, e.offset, RowId, ParentRows(e, ids, db));
      UnlimitedIsHarmless(e, QueryRows(e, [IDIn(ids)], db), db);
    }
    if q.withChildren.Some? {
      var e, ids := Keyed(q.withChildren.value), Ids(nodes);
      NoWindowIsHarmless(e.limit, e.offset, ParentKey, ChildRows(e, ids, db));
      KeyedUnlimited(q.withChildren.value);
      UnlimitedIsHarmless(e, QueryRows(e, [ParentIn(ids)], db), db);
    }
    assert FamilyHarmless(q, nodes, db);
  }

  lemma KeyedUnlimited(q: AccountQuery)
    requires EdgesUnlimited(q)
    ensures EdgesUnlimited(Keyed(q))
  {
  }

  /**
   The run of a query: one query per account and per edge would give the same if and only if all windows are harmless,
   and in particular whenever no edge query carries a Limit or an Offset.
   */
  method SqlAllAgrees(db: Database, q: AccountQuery, extra: seq<AccountPred>) returns (nodes: seq<Account>)
    requires ValidDatabase(db)
    ensures nodes == Simple(q, extra, db) <==> TreeHarmless(q, QueryRows(q, extra, db), db)
    ensures EdgesUnlimited(q) ==> nodes == Simple(q, extra, db)
  {
    var left;
    nodes, left := SqlAll(db, q, extra);
    TreeIff(q, QueryRows(q, extra, db), db);
    if EdgesUnlimited(q) {
      UnlimitedIsHarmless(q, QueryRows(q, extra, db), db);
    }
  }
}
