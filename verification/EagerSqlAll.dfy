/**
 sqlAll and its six loaders over whole query trees, edge queries with a Limit or an Offset included.  The loops compute
 the batched meaning; EagerAgree says when that is the result of one query per account and per edge.
 */
module EagerSqlAll {
  import opened Prelude
  import opened EagerModel
  import opened EagerLoad
  import opened EagerSplit
  import opened EagerBatch

  /******* The assign and init callbacks of sqlAll *******/

  function SetProxy(a: Account, p: ProxyRow): Account { a.(edges := a.edges.(proxy := Some(p))) }
  function SetParent(a: Account, p: Account): Account { a.(edges := a.edges.(parent := Some(p))) }
  function AddChild(a: Account, c: Account): Account { a.(edges := a.edges.(children := a.edges.children + [c])) }
  function AddUsageLog(a: Account, u: UsageLogRow): Account {
    a.(edges := a.edges.(usageLogs := a.edges.usageLogs + [u]))
  }
  function AddLink(a: Account, l: AccountGroupRow): Account {
    a.(edges := a.edges.(accountGroups := a.edges.accountGroups + [l]))
  }

  function WithProxy(a: Account, p: Option<ProxyRow>): Account { a.(edges := a.edges.(proxy := p)) }
  function WithParent(a: Account, p: Option<Account>): Account { a.(edges := a.edges.(parent := p)) }
  function WithChildren(a: Account, cs: seq<Account>): Account { a.(edges := a.edges.(children := cs)) }
  function WithUsageLogs(a: Account, us: seq<UsageLogRow>): Account { a.(edges := a.edges.(usageLogs := us)) }
  function WithLinks(a: Account, ls: seq<AccountGroupRow>): Account { a.(edges := a.edges.(accountGroups := ls)) }

  function ClearGroups(a: Account): Account { WithGroups(a, []) }
  function ClearChildren(a: Account): Account { WithChildren(a, []) }
  function ClearUsageLogs(a: Account): Account { WithUsageLogs(a, []) }
  function ClearLinks(a: Account): Account { WithLinks(a, []) }

  lemma {:induction false} AssignChildren(a: Account, es: seq<Account>)
    ensures AssignAll(AddChild, a, es) == WithChildren(a, a.edges.children + es)
  {
    if es == [] {
      assert a.edges.children + es == a.edges.children;
    } else {
      AssignChildren(a, Init(es));
      assert a.edges.children + es == a.edges.children + Init(es) + [Last(es)];
    }
  }

  lemma {:induction false} AssignUsageLogs(a: Account, es: seq<UsageLogRow>)
    ensures AssignAll(AddUsageLog, a, es) == WithUsageLogs(a, a.edges.usageLogs + es)
  {
    if es == [] {
      assert a.edges.usageLogs + es == a.edges.usageLogs;
    } else {
      AssignUsageLogs(a, Init(es));
      assert a.edges.usageLogs + es == a.edges.usageLogs + Init(es) + [Last(es)];
    }
  }

  lemma {:induction false} AssignLinks(a: Account, es: seq<AccountGroupRow>)
    ensures AssignAll(AddLink, a, es) == WithLinks(a, a.edges.accountGroups + es)
  {
    if es == [] {
      assert a.edges.accountGroups + es == a.edges.accountGroups;
    } else {
      AssignLinks(a, Init(es));
      assert a.edges.accountGroups + es == a.edges.accountGroups + Init(es) + [Last(es)];
    }
  }

  /******* The loaders *******/

  /** A to-many list goes to the last node that carries an identifier. */
  ghost function Owned<T>(nodes: seq<Account>, i: nat, s: seq<T>): seq<T>
    requires i < |nodes|
  {
    if IsLastWithId(nodes, i) then s else []
  }

  ghost predicate DistinctIds(nodes: seq<Account>) {
    forall i, j :: 0 <= i < j < |nodes| ==> nodes[i].row.id != nodes[j].row.id
  }

  lemma SameLast(was: seq<Account>, now: seq<Account>, i: nat)
    requires i < |was| == |now| && forall j :: 0 <= j < |was| ==> now[j].row == was[j].row
    ensures IsLastWithId(was, i) <==> IsLastWithId(now, i)
  {
  }

  /** Every identifier that is asked for leads to a node. */
  lemma AllIndexed(nodes: seq<Account>, nodeids: map<Id, nat>)
    requires IndexesById(nodes, nodeids)
    ensures forall k :: k in Ids(nodes) ==> k in nodeids
  {
    forall k | k in Ids(nodes) ensures k in nodeids {
      var i :| 0 <= i < |Ids(nodes)| && Ids(nodes)[i] == k;
      assert nodes[i].row.id == k;
    }
  }

  method LoadGroups(db: Database, q: LeafQuery<GroupRow>, nodes: array<Account>) returns (err: Option<LoadError>)
    modifies nodes
    ensures err.None?
    ensures forall i :: 0 <= i < nodes.Length ==>
              var was := old(nodes[..]);
              nodes[i] == WithGroups(was[i], Owned(was, i, HandedGroups(q, Ids(was), was[i].row.id, db)))
  {
    ghost var was := nodes[..];
    var edgeIDs, byID := IndexNodes(nodes, ClearGroups);
    var rows := Window(q.limit, q.offset, GroupJoin(q, db, edgeIDs));
    JoinMeaning(q.keep, db.groups(q.order), db.accountGroups(0), edgeIDs);
    WindowMembers(q.limit, q.offset, GroupJoin(q, db, edgeIDs));
    ghost var mid := nodes[..];
    AllIndexed(was, byID);
    err := StitchGroups(nodes, byID, rows);
    forall i | 0 <= i < nodes.Length
      ensures nodes[i] == WithGroups(was[i], Owned(was, i, HandedGroups(q, edgeIDs, was[i].row.id, db)))
    {
      SameLast(was, mid, i);
    }
  }

  lemma {:induction false} NoKeys(key: AccountRow -> Option<Id>, nodes: seq<Account>)
    requires KeysOf(key, nodes) == []
    ensures forall i :: 0 <= i < |nodes| ==> key(nodes[i].row).None?
  {
    if nodes != [] {
      NoKeys(key, Init(nodes));
    }
  }

  lemma KeyIsAsked(key: AccountRow -> Option<Id>, nodes: seq<Account>, i: nat, k: Id)
    requires i < |nodes| && key(nodes[i].row) == Some(k)
    ensures k in KeysOf(key, nodes)
  {
    KeysMeaning(key, nodes);
  }

  /** Handing over at most one neighbour sets the edge to it. */
  lemma ProxySet(a: Account, k: Option<Id>, neighbours: seq<ProxyRow>)
    requires a.edges.proxy.None? && (k.Some? ==> |WithKey(ProxyId, k.value, neighbours)| <= 1)
    ensures AssignAll(SetProxy, a, Matching(ProxyId, k, neighbours)) ==
            WithProxy(a, if k.None? then None else First(WithKey(ProxyId, k.value, neighbours)))
  {
  }

  lemma ProxyIsUnique(q: LeafQuery<ProxyRow>, db: Database, ids: seq<Id>, k: Id)
    requires ValidDatabase(db)
    ensures |WithKey(ProxyId, k, LeafRows(q, ProxyId, ids, db.proxies(q.order)))| <= 1
  {
    var table := db.proxies(q.order);
    BatchKeepsDistinct(q.keep, ProxyId, ids, table, ProxyId);
    WindowKeepsDistinct(ProxyId, q.limit, q.offset, Batch(q.keep, ProxyId, ids, table));
    AtMostOneWithKey(ProxyId, k, LeafRows(q, ProxyId, ids, table));
  }

  /** Needs no distinct identifiers: nodes that repeat one share its bucket. */
  method LoadProxy(db: Database, q: LeafQuery<ProxyRow>, nodes: array<Account>)
    returns (err: Option<LoadError>, left: LeafQuery<ProxyRow>)
    requires ValidDatabase(db)
    requires forall i :: 0 <= i < nodes.Length ==> nodes[i].edges.proxy.None?
    modifies nodes
    ensures err.None?
    ensures forall i :: 0 <= i < nodes.Length ==>
              var was := old(nodes[..]);
              nodes[i] == WithProxy(was[i], HandedProxy(q, KeysOf(ProxyKey, was), was[i].row.proxyID, db))
    ensures left == ProxyAfter(q, KeysOf(ProxyKey, old(nodes[..])))
  {
    ghost var was := nodes[..];
    var ids, buckets := CollectKeys(nodes[..], ProxyKey);
    if |ids| == 0 {
      NoKeys(ProxyKey, was);
      assert forall i :: 0 <= i < nodes.Length ==> ProxyKey(was[i].row).None?;
      return None, q;
    }
    left := LeafAfter(q, ProxyId, ids);
    var neighbours := LeafRows(q, ProxyId, ids, db.proxies(q.order));
    BatchMeaning(q.keep, ProxyId, ids, db.proxies(q.order));
    WindowMembers(q.limit, q.offset, Batch(q.keep, ProxyId, ids, db.proxies(q.order)));
    err := AttachOne(nodes, ProxyKey, buckets, neighbours, ProxyId, SetProxy);
    forall i | 0 <= i < nodes.Length
      ensures nodes[i] == WithProxy(was[i], HandedProxy(q, ids, was[i].row.proxyID, db))
    {
      if was[i].row.proxyID.Some? {
        ProxyIsUnique(q, db, ids, was[i].row.proxyID.value);
      }
      ProxySet(was[i], was[i].row.proxyID, neighbours);
    }
  }

  lemma ParentSet(a: Account, k: Option<Id>, neighbours: seq<Account>)
    requires a.edges.parent.None? && (k.Some? ==> |WithKey(AccountId, k.value, neighbours)| <= 1)
    ensures AssignAll(SetParent, a, Matching(AccountId, k, neighbours)) ==
            WithParent(a, if k.None? then None else First(WithKey(AccountId, k.value, neighbours)))
  {
  }

  /** The rows of any query have distinct identifiers. */
  lemma QueryRowsDistinct(q: AccountQuery, extra: seq<AccountPred>, db: Database)
    requires ValidDatabase(db)
    ensures DistinctRows(QueryRows(q, extra, db))
  {
    DistinctNodes(q.predicates + extra, db.accounts(q.order));
  }

  lemma ParentIsUnique(q: AccountQuery, db: Database, rows: seq<AccountRow>, k: Id)
    requires DistinctRows(rows)
    ensures |WithKey(AccountId, k, Loaded(q, rows, db))| <= 1
  {
    var ns := Loaded(q, rows, db);
    LoadedRows(q, rows, db);
    AtMostOneWithKey(AccountId, k, ns);
  }

  method LoadParent(db: Database, q: AccountQuery, nodes: array<Account>)
    returns (err: Option<LoadError>, left: AccountQuery)
    requires ValidDatabase(db)
    requires forall i :: 0 <= i < nodes.Length ==> nodes[i].edges.parent.None?
    modifies nodes
    ensures err.None?
    ensures forall i :: 0 <= i < nodes.Length ==>
              var was := old(nodes[..]);
              nodes[i] == WithParent(was[i], HandedParent(q, KeysOf(ParentKey, was), was[i].row.parentAccountID, db))
    ensures left == ParentAfter(q, KeysOf(ParentKey, old(nodes[..])), db)
    decreases Depth(q), 2
  {
    ghost var was := nodes[..];
    var ids, buckets := CollectKeys(nodes[..], ParentKey);
    if |ids| == 0 {
      NoKeys(ParentKey, was);
      assert forall i :: 0 <= i < nodes.Length ==> ParentKey(was[i].row).None?;
      return None, q;
    }
    ghost var rows := QueryRows(q, [IDIn(ids)], db);
    var neighbours, rest := SqlAll(db, q, [IDIn(ids)]);
    left := rest.(predicates := q.predicates + [IDIn(ids)]);
    BatchOfIds(q, ids, db);
    QueryRowsDistinct(q, [IDIn(ids)], db);
    err := AttachOne(nodes, ParentKey, buckets, neighbours, AccountId, SetParent);
    forall i | 0 <= i < nodes.Length
      ensures nodes[i] == WithParent(was[i], HandedParent(q, ids, was[i].row.parentAccountID, db))
    {
      if was[i].row.parentAccountID.Some? {
        ParentIsUnique(q, db, rows, was[i].row.parentAccountID.value);
      }
      ParentSet(was[i], was[i].row.parentAccountID, neighbours);
    }
  }

  lemma BatchOfIds(q: AccountQuery, ids: seq<Id>, db: Database)
    ensures forall n :: n in Loaded(q, QueryRows(q, [IDIn(ids)], db), db) ==> AccountId(n).value in ids
  {
    var ps, rows := q.predicates + [IDIn(ids)], QueryRows(q, [IDIn(ids)], db);
    SelectMeaning(ps, db.accounts(q.order));
    WindowMembers(q.limit, q.offset, Select(ps, db.accounts(q.order)));
    var ns := Loaded(q, rows, db);
    forall i | 0 <= i < |ns| ensures AccountId(ns[i]).value in ids {
      assert rows[i] in rows;
      SatisfiesSnoc(q.predicates, IDIn(ids), rows[i]);
      LoadedRows(q, rows, db);
    }
  }

  method LoadChildren(db: Database, q: AccountQuery, nodes: array<Account>)
    returns (err: Option<LoadError>, left: AccountQuery)
    requires ValidDatabase(db)
    modifies nodes
    ensures err.None?
    ensures forall i :: 0 <= i < nodes.Length ==>
              var was := old(nodes[..]);
              nodes[i] == WithChildren(was[i], Owned(was, i, HandedChildren(q, Ids(was), was[i].row.id, db)))
    ensures left == ChildrenAfter(q, Ids(old(nodes[..])), db)
    decreases Depth(q), 2
  {
    ghost var was := nodes[..];
    var fks, nodeids := IndexNodes(nodes, ClearChildren);
    KeysAreSelected(q);
    var neighbours, rest := SqlAll(db, Keyed(q), [ParentIn(fks)]);
    left := rest.(predicates := q.predicates + [ParentIn(fks)]);
    BatchOfParents(Keyed(q), fks, db);
    ghost var mid := nodes[..];
    AllIndexed(was, nodeids);
    err := AttachMany(nodes, nodeids, neighbours, AccountParent, AddChild);
    forall i | 0 <= i < nodes.Length
      ensures nodes[i] == WithChildren(was[i], Owned(was, i, HandedChildren(q, fks, was[i].row.id, db)))
    {
      SameLast(was, mid, i);
      AssignChildren(mid[i], Attached(mid, i, AccountParent, neighbours));
    }
  }

  lemma BatchOfParents(q: AccountQuery, ids: seq<Id>, db: Database)
    requires Selects(q, ColParentAccountID)
    ensures forall n :: n in Loaded(q, QueryRows(q, [ParentIn(ids)], db), db) ==>
              AccountParent(n).Some? && AccountParent(n).value in ids
  {
    var ps, rows := q.predicates + [ParentIn(ids)], QueryRows(q, [ParentIn(ids)], db);
    SelectMeaning(ps, db.accounts(q.order));
    WindowMembers(q.limit, q.offset, Select(ps, db.accounts(q.order)));
    var ns := Loaded(q, rows, db);
    forall i | 0 <= i < |ns| ensures AccountParent(ns[i]).Some? && AccountParent(ns[i]).value in ids {
      assert rows[i] in rows;
      SatisfiesSnoc(q.predicates, ParentIn(ids), rows[i]);
      LoadedRows(q, rows, db);
    }
  }

  method LoadUsageLogs(db: Database, q: LeafQuery<UsageLogRow>, nodes: array<Account>)
    returns (err: Option<LoadError>, left: LeafQuery<UsageLogRow>)
    modifies nodes
    ensures err.None?
    ensures forall i :: 0 <= i < nodes.Length ==>
              var was := old(nodes[..]);
              nodes[i] == WithUsageLogs(was[i], Owned(was, i, HandedLogs(q, Ids(was), was[i].row.id, db)))
    ensures left == LeafAfter(q, UsageLogAccount, Ids(old(nodes[..])))
  {
    ghost var was := nodes[..];
    var fks, nodeids := IndexNodes(nodes, ClearUsageLogs);
    left := LeafAfter(q, UsageLogAccount, fks);
    var neighbours := LeafRows(q, UsageLogAccount, fks, db.usageLogs(q.order));
    BatchMeaning(q.keep, UsageLogAccount, fks, db.usageLogs(q.order));
    WindowMembers(q.limit, q.offset, Batch(q.keep, UsageLogAccount, fks, db.usageLogs(q.order)));
    ghost var mid := nodes[..];
    AllIndexed(was, nodeids);
    err := AttachMany(nodes, nodeids, neighbours, UsageLogAccount, AddUsageLog);
    forall i | 0 <= i < nodes.Length
      ensures nodes[i] == WithUsageLogs(was[i], Owned(was, i, HandedLogs(q, fks, was[i].row.id, db)))
    {
      SameLast(was, mid, i);
      AssignUsageLogs(mid[i], Attached(mid, i, UsageLogAccount, neighbours));
    }
  }

  method LoadAccountGroups(db: Database, q: LeafQuery<AccountGroupRow>, nodes: array<Account>)
    returns (err: Option<LoadError>, left: LeafQuery<AccountGroupRow>)
    modifies nodes
    ensures err.None?
    ensures forall i :: 0 <= i < nodes.Length ==>
              var was := old(nodes[..]);
              nodes[i] == WithLinks(was[i], Owned(was, i, HandedLinks(q, Ids(was), was[i].row.id, db)))
    ensures left == LeafAfter(q, LinkAccount, Ids(old(nodes[..])))
  {
    ghost var was := nodes[..];
    var fks, nodeids := IndexNodes(nodes, ClearLinks);
    left := LeafAfter(q, LinkAccount, fks);
    var neighbours := LeafRows(q, LinkAccount, fks, db.accountGroups(q.order));
    BatchMeaning(q.keep, LinkAccount, fks, db.accountGroups(q.order));
    WindowMembers(q.limit, q.offset, Batch(q.keep, LinkAccount, fks, db.accountGroups(q.order)));
    ghost var mid := nodes[..];
    AllIndexed(was, nodeids);
    err := AttachMany(nodes, nodeids, neighbours, LinkAccount, AddLink);
    forall i | 0 <= i < nodes.Length
      ensures nodes[i] == WithLinks(was[i], Owned(was, i, HandedLinks(q, fks, was[i].row.id, db)))
    {
      SameLast(was, mid, i);
      AssignLinks(mid[i], Attached(mid, i, LinkAccount, neighbours));
    }
  }

  /******* sqlAll *******/

  ghost function WithFirst(q: AccountQuery, nodes: seq<Account>, a: Account, db: Database): Account {
    a.(edges := a.edges.(
       groups := if q.withGroups.Some? then HandedGroups(q.withGroups.value, Ids(nodes), a.row.id, db)
                 else a.edges.groups,
       proxy := if q.withProxy.Some?
                then HandedProxy(q.withProxy.value, KeysOf(ProxyKey, nodes), a.row.proxyID, db)
                else a.edges.proxy))
  }

  ghost function WithFamily(q: AccountQuery, nodes: seq<Account>, a: Account, db: Database): Account {
    a.(edges := a.edges.(
       parent := if q.withParent.Some?
                 then HandedParent(q.withParent.value, KeysOf(ParentKey, nodes), a.row.parentAccountID, db)
                 else a.edges.parent,
       children := if q.withChildren.Some? then HandedChildren(q.withChildren.value, Ids(nodes), a.row.id, db)
                   else a.edges.children))
  }

  ghost function WithRest(q: AccountQuery, nodes: seq<Account>, a: Account, db: Database): Account {
    a.(edges := a.edges.(
       usageLogs := if q.withUsageLogs.Some? then HandedLogs(q.withUsageLogs.value, Ids(nodes), a.row.id, db)
                    else a.edges.usageLogs,
       accountGroups := if q.withAccountGroups.Some?
                        then HandedLinks(q.withAccountGroups.value, Ids(nodes), a.row.id, db)
                        else a.edges.accountGroups))
  }

  /** The nodes have distinct identifiers, so every one of them is the last with its own. */
  lemma AllLast(nodes: seq<Account>)
    requires DistinctIds(nodes)
    ensures forall i :: 0 <= i < |nodes| ==> IsLastWithId(nodes, i)
  {
  }

  /** The nodes still have the rows they started with, so the batches ask for the same keys. */
  ghost predicate SameRows(a: seq<Account>, b: seq<Account>) {
    |a| == |b| && forall i :: 0 <= i < |a| ==> a[i].row == b[i].row
  }

  lemma SameBatches(a: seq<Account>, b: seq<Account>)
    requires SameRows(a, b)
    ensures Ids(a) == Ids(b)
    ensures KeysOf(ProxyKey, a) == KeysOf(ProxyKey, b) && KeysOf(ParentKey, a) == KeysOf(ParentKey, b)
  {
    SameKeys(ProxyKey, a, b);
    SameKeys(ParentKey, a, b);
  }

  method LoadFirst(db: Database, q: AccountQuery, a: array<Account>)
    returns (err: Option<LoadError>, proxy: Option<LeafQuery<ProxyRow>>)
    requires ValidDatabase(db) && DistinctIds(a[..])
    requires forall i :: 0 <= i < a.Length ==> a[i].edges.proxy.None?
    modifies a
    ensures err.None?
    ensures forall i :: 0 <= i < a.Length ==> a[i] == WithFirst(q, old(a[..]), old(a[i]), db)
    ensures proxy == if q.withProxy.None? then None
                     else Some(ProxyAfter(q.withProxy.value, KeysOf(ProxyKey, old(a[..]))))
  {
    err, proxy := None, None;
    ghost var was := a[..];
    AllLast(was);
    if q.withGroups.Some? { err := LoadGroups(db, q.withGroups.value, a); }
    SameBatches(was, a[..]);
    if q.withProxy.Some? {
      var left;
      err, left := LoadProxy(db, q.withProxy.value, a);
      proxy := Some(left);
    }
  }

  method LoadFamily(db: Database, q: AccountQuery, a: array<Account>)
    returns (err: Option<LoadError>, parent: Option<AccountQuery>, children: Option<AccountQuery>)
    requires ValidDatabase(db) && DistinctIds(a[..])
    requires forall i :: 0 <= i < a.Length ==> a[i].edges.parent.None?
    modifies a
    ensures err.None?
    ensures forall i :: 0 <= i < a.Length ==> a[i] == WithFamily(q, old(a[..]), old(a[i]), db)
    ensures parent == if q.withParent.None? then None
                      else Some(ParentAfter(q.withParent.value, KeysOf(ParentKey, old(a[..])), db))
    ensures children == if q.withChildren.None? then None
                        else Some(ChildrenAfter(q.withChildren.value, Ids(old(a[..])), db))
    decreases Depth(q), 0, 0
  {
    err, parent, children := None, None, None;
    ghost var was := a[..];
    if q.withParent.Some? {
      var left;
      err, left := LoadParent(db, q.withParent.value, a);
      parent := Some(left);
    }
    SameBatches(was, a[..]);
    AllLast(a[..]);
    if q.withChildren.Some? {
      var left;
      err, left := LoadChildren(db, q.withChildren.value, a);
      children := Some(left);
    }
  }

  method LoadRest(db: Database, q: AccountQuery, a: array<Account>)
    returns (err: Option<LoadError>, logs: Option<LeafQuery<UsageLogRow>>, links: Option<LeafQuery<AccountGroupRow>>)
    requires DistinctIds(a[..])
    modifies a
    ensures err.None?
    ensures forall i :: 0 <= i < a.Length ==> a[i] == WithRest(q, old(a[..]), old(a[i]), db)
    ensures logs == if q.withUsageLogs.None? then None
                    else Some(LeafAfter(q.withUsageLogs.value, UsageLogAccount, Ids(old(a[..]))))
    ensures links == if q.withAccountGroups.None? then None
                     else Some(LeafAfter(q.withAccountGroups.value, LinkAccount, Ids(old(a[..]))))
  {
    err, logs, links := None, None, None;
    ghost var was := a[..];
    AllLast(was);
    if q.withUsageLogs.Some? {
      var left;
      err, left := LoadUsageLogs(db, q.withUsageLogs.value, a);
      logs := Some(left);
    }
    SameBatches(was, a[..]);
    AllLast(a[..]);
    if q.withAccountGroups.Some? {
      var left;
      err, left := LoadAccountGroups(db, q.withAccountGroups.value, a);
      links := Some(left);
    }
  }

  lemma LoadedByStages(q: AccountQuery, nodes: seq<Account>, a: Account, db: Database)
    requires a.edges == NoEdges(Requested(q))
    ensures WithRest(q, nodes, WithFamily(q, nodes, WithFirst(q, nodes, a, db), db), db) == LoadedNode(q, nodes, a, db)
  {
  }

  /**
   The whole batched run, whatever the database holds, whichever edges are asked for at any depth of the tree, and
   whatever limits and offsets the queries carry; and what it leaves behind in the edge queries.  The loaders cannot
   fail, so their early returns have no model.
   */
  method SqlAll(db: Database, q: AccountQuery, extra: seq<AccountPred>)
    returns (nodes: seq<Account>, left: AccountQuery)
    requires ValidDatabase(db)
    ensures nodes == Loaded(q, QueryRows(q, extra, db), db)
    ensures left == After(q, QueryRows(q, extra, db), db)
    decreases Depth(q), 1
  {
    var rows := QueryRows(q, extra, db);
    if |rows| == 0 {
      return [], q;
    }
    QueryRowsDistinct(q, extra, db);
    var a := new Account[|rows|](i requires 0 <= i < |rows| => Fresh(q, rows[i]));
    ghost var first := a[..];
    assert first == FreshNodes(q, rows);
    left := LoadEdges(db, q, a);
    nodes := a[..];
    assert forall i :: 0 <= i < |rows| ==> nodes[i] == LoadedNode(q, first, first[i], db);
  }

  /** The six loads, one after the other. */
  method LoadEdges(db: Database, q: AccountQuery, a: array<Account>) returns (left: AccountQuery)
    requires ValidDatabase(db) && DistinctIds(a[..])
    requires forall i :: 0 <= i < a.Length ==> a[i].edges == NoEdges(Requested(q))
    modifies a
    ensures forall i :: 0 <= i < a.Length ==> a[i] == LoadedNode(q, old(a[..]), old(a[i]), db)
    ensures left == AfterNodes(q, old(a[..]), db)
    decreases Depth(q), 0, 1
  {
    ghost var first := a[..];
    var err, proxy := LoadFirst(db, q, a);
    SameBatches(first, a[..]);
    var parent, children;
    err, parent, children := LoadFamily(db, q, a);
    SameBatches(first, a[..]);
    var logs, links;
    err, logs, links := LoadRest(db, q, a);
    left := q.(withProxy := proxy, withParent := parent, withChildren := children, withUsageLogs := logs,
               withAccountGroups := links);
    forall i | 0 <= i < a.Length ensures a[i] == LoadedNode(q, first, first[i], db) {
      LoadedByStages(q, first, first[i], db);
    }
  }
}
