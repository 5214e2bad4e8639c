/**
 What a run returns, in terms of the stored rows and the caller's own predicates and keys alone: which rows, in which
 order, with which columns, and which neighbours.
 */
module EagerMeaning {
  import opened Prelude
  import opened EagerModel
  import opened EagerLoad
  import opened EagerSplit
  import opened EagerBatch
  import opened EagerWindow
  import opened EagerSqlAll
  import opened EagerAgree
  import opened EagerLaws

  /******* Picking rows *******/

  ghost function Filter<T>(p: T -> bool, t: seq<T>): seq<T> {
    if t == [] then [] else if p(Last(t)) then Filter(p, Init(t)) + [Last(t)] else Filter(p, Init(t))
  }

  /** Exactly the elements with the property, each where the list has it. */
  lemma {:induction false} FilterMeaning<T(!new)>(p: T -> bool, t: seq<T>)
    ensures forall e :: e in Filter(p, t) <==> e in t && p(e)
    ensures NoDuplicates(t) ==> NoDuplicates(Filter(p, t)) && InOrder(Filter(p, t), t)
  {
    if t != [] {
      var init, last := Init(t), Last(t);
      FilterMeaning(p, init);
      assert t == init + [last];
      if NoDuplicates(t) {
        var s := Filter(p, init);
        forall i | 0 <= i < |s| ensures s[i] != last {
          assert s[i] in s;
        }
        InOrderLonger(s, init, last);
        if p(last) {
          InOrderSnoc(s, t);
        }
      }
    }
  }

  /** The row meets every predicate: the caller's own conditions and the key lists. */
  ghost predicate Matches(ps: seq<AccountPred>, r: AccountRow) {
    && (forall f :: Where(f) in ps ==> f(r))
    && (forall ids :: IDIn(ids) in ps ==> r.id in ids)
    && (forall ids :: ParentIn(ids) in ps ==> exists k :: k in ids && r.parentAccountID == Some(k))
  }

  lemma SatisfiesIsMatches(ps: seq<AccountPred>, r: AccountRow)
    ensures Satisfies(ps, r) <==> Matches(ps, r)
  {
    if Satisfies(ps, r) {
      forall p | p in ps ensures Holds(p, r) {
        var i :| 0 <= i < |ps| && ps[i] == p;
      }
      forall f | Where(f) in ps ensures f(r) {
        assert Holds(Where(f), r);
      }
      forall ids | IDIn(ids) in ps ensures r.id in ids {
        assert Holds(IDIn(ids), r);
      }
      forall ids | ParentIn(ids) in ps ensures exists k :: k in ids && r.parentAccountID == Some(k) {
        assert Holds(ParentIn(ids), r);
        var k: Id := r.parentAccountID.value;
        assert k in ids;
      }
    }
    if Matches(ps, r) {
      forall i | 0 <= i < |ps| ensures Holds(ps[i], r) {
        assert ps[i] in ps;
      }
    }
  }

  lemma {:induction false} SelectIsFilter(ps: seq<AccountPred>, t: seq<AccountRow>)
    ensures Select(ps, t) == Filter((r: AccountRow) => Satisfies(ps, r), t)
  {
    if t != [] {
      SelectIsFilter(ps, Init(t));
    }
  }

  lemma {:induction false} BatchIsFilter<R(!new)>(keep: R -> bool, key: R -> Option<Id>, k: Id, t: seq<R>)
    ensures Batch(keep, key, [k], t) == Filter((r: R) => keep(r) && key(r) == Some(k), t)
  {
    if t != [] {
      BatchIsFilter(keep, key, k, Init(t));
    }
  }

  /** The rows of an edge table that the query keeps and whose key is the one asked for, in table order. */
  lemma LeafMeaning<R(!new)>(q: LeafQuery<R>, key: R -> Option<Id>, k: Id, t: seq<R>)
    requires NoDuplicates(t) && NoWindow(q.limit, q.offset)
    ensures var rows := LeafRows(q, key, [k], t);
            && (forall r :: r in rows <==> r in t && q.keep(r) && key(r) == Some(k))
            && NoDuplicates(rows) && InOrder(rows, t)
  {
    BatchIsFilter(q.keep, key, k, t);
    FilterMeaning((r: R) => q.keep(r) && key(r) == Some(k), t);
    WindowMeaning(q.limit, q.offset, Batch(q.keep, key, [k], t));
  }

  lemma {:induction false} LinkedIsFilter(keep: GroupRow -> bool, t: seq<GroupRow>, links: seq<AccountGroupRow>, k: Id)
    ensures LinkedGroups(keep, t, links, k) == Filter((g: GroupRow) => keep(g) && Linked(links, k, g.id), t)
  {
    if t != [] {
      LinkedIsFilter(keep, Init(t), links, k);
    }
  }

  /******* LIMIT and OFFSET *******/

  /** The rows from the offset on, as many as the limit allows; zero is no limit, and an offset alone brings one. */
  lemma WindowMeaning<T>(limit: Option<nat>, offset: nat, s: seq<T>)
    ensures var w := Window(limit, offset, s);
            && (forall i :: 0 <= i < |w| ==> offset + i < |s| && w[i] == s[offset + i])
            && (limit.Some? && limit.value > 0 ==>
                  |w| == if |s| <= offset then 0 else if |s| - offset <= limit.value then |s| - offset else limit.value)
            && (NoWindow(limit, offset) ==> w == s)
            && ((limit.None? || limit == Some(0)) && offset > 0 ==>
                  |w| == if |s| <= offset then 0 else if |s| - offset <= MAX_INT32 then |s| - offset else MAX_INT32)
  {
  }

  /******* The accounts of a query *******/

  /** The stored rows that meet every predicate, in the order asked for. */
  ghost predicate StoredRows(q: AccountQuery, extra: seq<AccountPred>, all: seq<AccountRow>, db: Database) {
    && (forall r :: r in all <==> r in db.accounts(q.order) && Matches(q.predicates + extra, r))
    && NoDuplicates(all) && InOrder(all, db.accounts(q.order))
  }

  /** What a query finds before LIMIT and OFFSET. */
  lemma AllRows(q: AccountQuery, extra: seq<AccountPred>, db: Database) returns (all: seq<AccountRow>)
    requires ValidDatabase(db)
    ensures StoredRows(q, extra, all, db)
    ensures QueryRows(q, extra, db) == Window(q.limit, q.offset, all)
  {
    var ps, table := q.predicates + extra, db.accounts(q.order);
    var p := (r: AccountRow) => Satisfies(ps, r);
    all := Select(ps, table);
    SelectIsFilter(ps, table);
    assert NoDuplicates(table);
    FilterMeaning(p, table);
    forall r ensures p(r) <==> Matches(ps, r) {
      SatisfiesIsMatches(ps, r);
    }
  }

  /** The columns of a node: all of them, or those the caller selected and those its edges need. */
  lemma DecodeMeaning(q: AccountQuery, r: AccountRow)
    ensures var d := Decode(q, r);
            && d.id == r.id
            && (forall a :: a in d.attrs <==> a in r.attrs && (q.fields == [] || ColOther(a) in q.fields))
            && (forall a :: a in d.attrs ==> d.attrs[a] == r.attrs[a])
            && d.proxyID == (if q.fields == [] || ColProxyID in q.fields || q.withProxy.Some? then r.proxyID else None)
            && d.parentAccountID == (if q.fields == [] || ColParentAccountID in q.fields || q.withParent.Some?
                                     then r.parentAccountID else None)
  {
    ColumnsMeaning(q);
  }

  /******* The neighbours of one account *******/

  ghost predicate RightGroups(q: LeafQuery<GroupRow>, k: Id, gs: seq<GroupRow>, db: Database) {
    && (forall g :: g in gs <==>
          && g in db.groups(q.order) && q.keep(g)
          && exists l :: l in db.accountGroups(0) && l.accountID == k && l.groupID == g.id)
    && NoDuplicates(gs) && InOrder(gs, db.groups(q.order))
  }

  ghost predicate RightProxy(q: LeafQuery<ProxyRow>, key: Option<Id>, found: Option<ProxyRow>, db: Database) {
    forall p :: found == Some(p) <==> p in db.proxies(q.order) && q.keep(p) && key == Some(p.id)
  }

  ghost predicate RightLogs(q: LeafQuery<UsageLogRow>, k: Id, us: seq<UsageLogRow>, db: Database) {
    && (forall u :: u in us <==> u in db.usageLogs(q.order) && q.keep(u) && u.accountID == k)
    && NoDuplicates(us) && InOrder(us, db.usageLogs(q.order))
  }

  ghost predicate RightLinks(q: LeafQuery<AccountGroupRow>, k: Id, ls: seq<AccountGroupRow>, db: Database) {
    && (forall l :: l in ls <==> l in db.accountGroups(q.order) && q.keep(l) && l.accountID == k)
    && NoDuplicates(ls) && InOrder(ls, db.accountGroups(q.order))
  }

  /** The rows of the children, in the order of the children query. */
  ghost predicate ChildrenRows(q: AccountQuery, k: Id, rows: seq<AccountRow>, db: Database) {
    && (forall c :: c in rows <==>
          c in db.accounts(q.order) && Matches(q.predicates, c) && c.parentAccountID == Some(k))
    && NoDuplicates(rows) && InOrder(rows, db.accounts(q.order))
  }

  lemma LogsMeaning(q: LeafQuery<UsageLogRow>, k: Id, db: Database)
    requires ValidDatabase(db) && NoWindow(q.limit, q.offset)
    ensures RightLogs(q, k, UsageLogsOf(q, k, db), db)
  {
    assert NoDuplicates(db.usageLogs(q.order));
    LeafMeaning(q, UsageLogAccount, k, db.usageLogs(q.order));
  }

  lemma LinksMeaning(q: LeafQuery<AccountGroupRow>, k: Id, db: Database)
    requires ValidDatabase(db) && NoWindow(q.limit, q.offset)
    ensures RightLinks(q, k, LinksOf(q, k, db), db)
  {
    assert DistinctLinks(db.accountGroups(q.order)) && NoDuplicates(db.accountGroups(q.order));
    LeafMeaning(q, LinkAccount, k, db.accountGroups(q.order));
  }

  lemma GroupsMeaning(q: LeafQuery<GroupRow>, k: Id, db: Database)
    requires ValidDatabase(db) && NoWindow(q.limit, q.offset)
    ensures RightGroups(q, k, GroupsOf(q, k, db), db)
  {
    var table, links := db.groups(q.order), db.accountGroups(0);
    LinkedIsFilter(q.keep, table, links, k);
    assert NoDuplicates(table);
    FilterMeaning((g: GroupRow) => q.keep(g) && Linked(links, k, g.id), table);
    WindowMeaning(q.limit, q.offset, LinkedGroups(q.keep, table, links, k));
  }

  /** The children are loaded as nodes, one for each stored row that names the account as its parent. */
  lemma ChildrenMeaning(q: AccountQuery, k: Id, db: Database) returns (rows: seq<AccountRow>)
    requires ValidDatabase(db) && NoWindow(q.limit, q.offset)
    ensures ChildrenRows(q, k, rows, db)
    ensures ChildrenOf(q, k, db) == NodesOf(Keyed(q), rows, db)
  {
    rows := AllRows(Keyed(q), [ParentIn([k])], db);
    WindowMeaning(q.limit, q.offset, rows);
    forall c
      ensures Matches(q.predicates + [ParentIn([k])], c) <==> Matches(q.predicates, c) && c.parentAccountID == Some(k)
    {
      SatisfiesIsMatches(q.predicates + [ParentIn([k])], c);
      SatisfiesIsMatches(q.predicates, c);
      SatisfiesSnoc(q.predicates, ParentIn([k]), c);
      OnlyParent(k, c);
    }
  }

  lemma OnlyParent(k: Id, c: AccountRow)
    ensures Holds(ParentIn([k]), c) <==> c.parentAccountID == Some(k)
  {
    SatisfiesIsMatches([ParentIn([k])], c);
    assert ParentIn([k]) in [ParentIn([k])];
    assert Satisfies([ParentIn([k])], c) <==> Holds([ParentIn([k])][0], c);
  }

  /******* Whole trees *******/

  /** The node holds the columns of the row that were asked for, and those its edges need. */
  ghost predicate RightColumns(q: AccountQuery, r: AccountRow, d: AccountRow) {
    && d.id == r.id
    && (forall a :: a in d.attrs <==> a in r.attrs && (q.fields == [] || ColOther(a) in q.fields))
    && (forall a :: a in d.attrs ==> d.attrs[a] == r.attrs[a])
    && d.proxyID == (if q.fields == [] || ColProxyID in q.fields || q.withProxy.Some? then r.proxyID else None)
    && d.parentAccountID == (if q.fields == [] || ColParentAccountID in q.fields || q.withParent.Some?
                             then r.parentAccountID else None)
  }

  ghost predicate ParentRow(q: AccountQuery, key: Option<Id>, p: AccountRow, db: Database) {
    p in db.accounts(q.order) && Matches(q.predicates, p) && key == Some(p.id)
  }

  ghost predicate RightLeaves(q: AccountQuery, r: AccountRow, e: AccountEdges, db: Database) {
    && (if q.withGroups.Some? then RightGroups(q.withGroups.value, r.id, e.groups, db) else e.groups == [])
    && (if q.withProxy.Some? then RightProxy(q.withProxy.value, r.proxyID, e.proxy, db) else e.proxy.None?)
    && (if q.withUsageLogs.Some? then RightLogs(q.withUsageLogs.value, r.id, e.usageLogs, db) else e.usageLogs == [])
    && (if q.withAccountGroups.Some? then RightLinks(q.withAccountGroups.value, r.id, e.accountGroups, db)
        else e.accountGroups == [])
  }

  ghost predicate RightMarks(q: AccountQuery, e: AccountEdges) {
    && (Groups in e.loadedTypes <==> q.withGroups.Some?) && (Proxy in e.loadedTypes <==> q.withProxy.Some?)
    && (Parent in e.loadedTypes <==> q.withParent.Some?) && (Children in e.loadedTypes <==> q.withChildren.Some?)
    && (UsageLogs in e.loadedTypes <==> q.withUsageLogs.Some?)
    && (AccountGroups in e.loadedTypes <==> q.withAccountGroups.Some?)
  }

  /** The node that a stored row should be returned as, with its edges and theirs. */
  ghost predicate RightNode(q: AccountQuery, r: AccountRow, n: Account, db: Database)
    decreases Depth(q), 1
  {
    && RightColumns(q, r, n.row) && RightMarks(q, n.edges) && RightLeaves(q, r, n.edges, db)
    && (if q.withParent.Some? then RightParent(q.withParent.value, r.parentAccountID, n.edges.parent, db)
        else n.edges.parent.None?)
    && (if q.withChildren.Some? then RightChildren(q.withChildren.value, r.id, n.edges.children, db)
        else n.edges.children == [])
  }

  ghost predicate RightParent(q: AccountQuery, key: Option<Id>, found: Option<Account>, db: Database)
    decreases Depth(q), 2
  {
    && (found.None? <==> forall p :: !ParentRow(q, key, p, db))
    && (forall p :: ParentRow(q, key, p, db) ==> found.Some? && RightNode(q, p, found.value, db))
  }

  ghost predicate RightChildren(q: AccountQuery, k: Id, cs: seq<Account>, db: Database)
    decreases Depth(q), 2
  {
    exists rows :: ChildrenRows(q, k, rows, db) && |cs| == |rows| &&
      forall j :: 0 <= j < |rows| ==> RightNode(Keyed(q), rows[j], cs[j], db)
  }

  lemma ColumnsAreRight(q: AccountQuery, r: AccountRow)
    ensures RightColumns(q, r, Decode(q, r))
  {
    DecodeMeaning(q, r);
  }

  lemma ProxyIsRight(q: LeafQuery<ProxyRow>, key: Option<Id>, db: Database)
    requires ValidDatabase(db) && NoWindow(q.limit, q.offset)
    ensures RightProxy(q, key, ProxyOf(q, key, db), db)
  {
    var table := db.proxies(q.order);
    if key.Some? {
      var k: Id := key.value;
      assert NoDuplicates(table);
      LeafMeaning(q, ProxyId, k, table);
      var found := LeafRows(q, ProxyId, [k], table);
      ProxyIsUnique(q, db, [k], k);
      assert forall i :: 0 <= i < |found| ==> found[i] in found;
      WithKeyAll(ProxyId, k, found);
      forall p ensures First(found) == Some(p) <==> p in found {
        OnlyWithKey(ProxyId, k, found, p);
      }
    }
  }

  lemma LeavesAreRight(q: AccountQuery, r: AccountRow, e: AccountEdges, db: Database)
    requires ValidDatabase(db) && EdgesUnlimited(q) && e == Node(q, r, db).edges
    ensures RightLeaves(q, r, e, db)
  {
    if q.withGroups.Some? { GroupsMeaning(q.withGroups.value, r.id, db); }
    if q.withProxy.Some? { ProxyIsRight(q.withProxy.value, r.proxyID, db); }
    if q.withUsageLogs.Some? { LogsMeaning(q.withUsageLogs.value, r.id, db); }
    if q.withAccountGroups.Some? { LinksMeaning(q.withAccountGroups.value, r.id, db); }
  }

  lemma MarksAreRight(q: AccountQuery, r: AccountRow, db: Database)
    ensures RightMarks(q, Node(q, r, db).edges)
  {
    RequestedMeaning(q);
    assert Node(q, r, db).edges.loadedTypes == Requested(q);
  }

  /** The parent is the one stored row that the query keeps and the key names. */
  lemma ParentMeaning(q: AccountQuery, key: Option<Id>, db: Database)
    requires ValidDatabase(db) && NoWindow(q.limit, q.offset)
    ensures var found := ParentOf(q, key, db);
            && (found.None? <==> forall p :: !ParentRow(q, key, p, db))
            && (forall p :: ParentRow(q, key, p, db) ==> found == Some(Node(q, p, db)))
  {
    if key.Some? {
      var k: Id := key.value;
      var rows := AllRows(q, [IDIn([k])], db);
      WindowMeaning(q.limit, q.offset, rows);
      OwnParentRow(q, k, db);
      forall p ensures p in rows <==> ParentRow(q, key, p, db) {
        SatisfiesIsMatches(q.predicates + [IDIn([k])], p);
        SatisfiesIsMatches(q.predicates, p);
        SatisfiesSnoc(q.predicates, IDIn([k]), p);
        OnlyID(k, p);
      }
      FirstOfRows(q, rows, db);
      assert ParentOf(q, key, db) == First(Simple(q, [IDIn([key.value])], db));
    }
  }

  lemma OnlyID(k: Id, p: AccountRow)
    ensures Holds(IDIn([k]), p) <==> p.id == k
  {
    SatisfiesIsMatches([IDIn([k])], p);
    assert IDIn([k]) in [IDIn([k])];
    assert Satisfies([IDIn([k])], p) <==> Holds([IDIn([k])][0], p);
  }

  lemma FirstOfRows(q: AccountQuery, rows: seq<AccountRow>, db: Database)
    requires |rows| <= 1
    ensures First(NodesOf(q, rows, db)).None? <==> forall p :: p !in rows
    ensures forall p :: p in rows ==> First(NodesOf(q, rows, db)) == Some(Node(q, p, db))
  {
    if |rows| == 1 {
      assert rows[0] in rows;
      assert NodesOf(q, rows, db)[0] == Node(q, rows[0], db);
    }
  }

  /** One query per account and per edge gives every stored row its right node. */
  lemma {:induction false} NodeIsRight(q: AccountQuery, r: AccountRow, db: Database)
    requires ValidDatabase(db) && EdgesUnlimited(q)
    ensures RightNode(q, r, Node(q, r, db), db)
    decreases Depth(q), 1
  {
    ColumnsAreRight(q, r);
    LeavesAreRight(q, r, Node(q, r, db).edges, db);
    MarksAreRight(q, r, db);
    if q.withParent.Some? { ParentIsRight(q.withParent.value, r.parentAccountID, db); }
    if q.withChildren.Some? { ChildrenAreRight(q.withChildren.value, r.id, db); }
  }

  lemma {:induction false} ParentIsRight(q: AccountQuery, key: Option<Id>, db: Database)
    requires ValidDatabase(db) && EdgesUnlimited(q) && NoWindow(q.limit, q.offset)
    ensures RightParent(q, key, ParentOf(q, key, db), db)
    decreases Depth(q), 2
  {
    ParentMeaning(q, key, db);
    forall p | ParentRow(q, key, p, db) ensures RightNode(q, p, Node(q, p, db), db) {
      NodeIsRight(q, p, db);
    }
  }

  lemma {:induction false} ChildrenAreRight(q: AccountQuery, k: Id, db: Database)
    requires ValidDatabase(db) && EdgesUnlimited(q) && NoWindow(q.limit, q.offset)
    ensures RightChildren(q, k, ChildrenOf(q, k, db), db)
    decreases Depth(q), 2
  {
    var rows := ChildrenMeaning(q, k, db);
    var cs := NodesOf(Keyed(q), rows, db);
    KeyedUnlimited(q);
    forall j | 0 <= j < |rows| ensures RightNode(Keyed(q), rows[j], cs[j], db) {
      NodeIsRight(Keyed(q), rows[j], db);
      assert cs[j] == Node(Keyed(q), rows[j], db);
    }
    assert ChildrenRows(q, k, rows, db);
  }

  lemma NodesAreRight(q: AccountQuery, rows: seq<AccountRow>, nodes: seq<Account>, db: Database)
    requires ValidDatabase(db) && nodes == Loaded(q, rows, db)
    ensures |nodes| == |rows| && forall i :: 0 <= i < |rows| ==> RightColumns(q, rows[i], nodes[i].row)
    ensures EdgesUnlimited(q) ==> forall i :: 0 <= i < |rows| ==> RightNode(q, rows[i], nodes[i], db)
  {
    LoadedRows(q, rows, db);
    forall i | 0 <= i < |rows| ensures RightColumns(q, rows[i], nodes[i].row) {
      ColumnsAreRight(q, rows[i]);
    }
    if EdgesUnlimited(q) {
      UnlimitedIsHarmless(q, rows, db);
      TreeIff(q, rows, db);
      forall i | 0 <= i < |rows| ensures RightNode(q, rows[i], nodes[i], db) {
        NodeIsRight(q, rows[i], db);
        assert nodes[i] == Node(q, rows[i], db);
      }
    }
  }

  /** `rows` are the rows of `all` from the offset on, as many as the limit allows. */
  ghost predicate PageOf(limit: Option<nat>, offset: nat, all: seq<AccountRow>, rows: seq<AccountRow>) {
    && (forall i :: 0 <= i < |rows| ==> offset + i < |all| && rows[i] == all[offset + i])
    && (limit.Some? && limit.value > 0 ==>
          |rows| == if |all| <= offset then 0
                    else if |all| - offset <= limit.value then |all| - offset else limit.value)
    && (NoWindow(limit, offset) ==> rows == all)
    && ((limit.None? || limit == Some(0)) && offset > 0 ==>
          |rows| == if |all| <= offset then 0 else if |all| - offset <= MAX_INT32 then |all| - offset else MAX_INT32)
  }

  lemma PageIsWindow(limit: Option<nat>, offset: nat, all: seq<AccountRow>)
    ensures PageOf(limit, offset, all, Window(limit, offset, all))
  {
    WindowMeaning(limit, offset, all);
  }

  /**
   The whole run.  `all` are the stored rows that meet the caller's predicates, in the order asked for; the accounts
   returned are those of one page of them, and each is the right node of its row, edges at every depth included.
   */
  method ReadAccounts(db: Database, q: AccountQuery, extra: seq<AccountPred>)
    returns (nodes: seq<Account>, ghost all: seq<AccountRow>, ghost rows: seq<AccountRow>)
    requires ValidDatabase(db)
    ensures StoredRows(q, extra, all, db) && PageOf(q.limit, q.offset, all, rows)
    ensures |nodes| == |rows| && forall i :: 0 <= i < |rows| ==> RightColumns(q, rows[i], nodes[i].row)
    ensures EdgesUnlimited(q) ==> forall i :: 0 <= i < |rows| ==> RightNode(q, rows[i], nodes[i], db)
  {
    var left;
    nodes, left := SqlAll(db, q, extra);
    all := AllRows(q, extra, db);
    rows := QueryRows(q, extra, db);
    PageIsWindow(q.limit, q.offset, all);
    NodesAreRight(q, rows, nodes, db);
  }
}
