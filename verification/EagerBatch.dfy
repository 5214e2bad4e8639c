/**
 The batched meaning of a query: every edge is asked for once for all nodes of a level, a Limit or an Offset cuts that
 one result, and every node is handed its share of what is left.
 */
module EagerBatch {
  import opened Prelude
  import opened EagerModel
  import opened EagerLoad

  /** The nodes of a level before any edge is loaded. */
  ghost function FreshNodes(q: AccountQuery, rows: seq<AccountRow>): seq<Account> {
    seq(|rows|, i requires 0 <= i < |rows| => Fresh(q, rows[i]))
  }

  /** The rows of the children query for all nodes, before LIMIT and OFFSET; the same for the parent query. */
  ghost function ChildRows(q: AccountQuery, ids: seq<Id>, db: Database): seq<AccountRow> {
    Select(q.predicates + [ParentIn(ids)], db.accounts(q.order))
  }

  ghost function ParentRows(q: AccountQuery, ids: seq<Id>, db: Database): seq<AccountRow> {
    Select(q.predicates + [IDIn(ids)], db.accounts(q.order))
  }

  /** What the batched run makes of the rows of one level. */
  ghost function Loaded(q: AccountQuery, rows: seq<AccountRow>, db: Database): seq<Account>
    decreases Depth(q), 1
  {
    var nodes := FreshNodes(q, rows);
    seq(|rows|, i requires 0 <= i < |rows| => LoadedNode(q, nodes, nodes[i], db))
  }

  ghost function LoadedNode(q: AccountQuery, nodes: seq<Account>, a: Account, db: Database): Account
    decreases Depth(q), 0
  {
    var ids := Ids(nodes);
    Account(a.row, AccountEdges(
              if q.withGroups.Some? then HandedGroups(q.withGroups.value, ids, a.row.id, db) else [],
              if q.withProxy.Some? then HandedProxy(q.withProxy.value, KeysOf(ProxyKey, nodes), a.row.proxyID, db)
              else None,
              if q.withParent.Some?
              then HandedParent(q.withParent.value, KeysOf(ParentKey, nodes), a.row.parentAccountID, db)
              else None,
              if q.withChildren.Some? then HandedChildren(q.withChildren.value, ids, a.row.id, db) else [],
              if q.withUsageLogs.Some? then HandedLogs(q.withUsageLogs.value, ids, a.row.id, db) else [],
              if q.withAccountGroups.Some? then HandedLinks(q.withAccountGroups.value, ids, a.row.id, db) else [],
              Requested(q)))
  }

  /** The groups that some joined row of the batch links to the account, in order of first appearance. */
  ghost function HandedGroups(q: LeafQuery<GroupRow>, ids: seq<Id>, account: Id, db: Database): seq<GroupRow> {
    var rows := Window(q.limit, q.offset, GroupJoin(q, db, ids));
    LinkedIn(FirstGroups(rows), rows, account)
  }

  ghost function HandedProxy(q: LeafQuery<ProxyRow>, ids: seq<Id>, key: Option<Id>, db: Database): Option<ProxyRow> {
    if key.None? then None else First(WithKey(ProxyId, key.value, LeafRows(q, ProxyId, ids, db.proxies(q.order))))
  }

  ghost function HandedParent(q: AccountQuery, ids: seq<Id>, key: Option<Id>, db: Database): Option<Account>
    decreases Depth(q), 3
  {
    if key.None? then None
    else First(WithKey(AccountId, key.value, Loaded(q, QueryRows(q, [IDIn(ids)], db), db)))
  }

  ghost function HandedChildren(q: AccountQuery, ids: seq<Id>, account: Id, db: Database): seq<Account>
    decreases Depth(q), 3
  {
    WithKey(AccountParent, account, Loaded(Keyed(q), QueryRows(Keyed(q), [ParentIn(ids)], db), db))
  }

  ghost function HandedLogs(q: LeafQuery<UsageLogRow>, ids: seq<Id>, account: Id, db: Database): seq<UsageLogRow> {
    WithKey(UsageLogAccount, account, LeafRows(q, UsageLogAccount, ids, db.usageLogs(q.order)))
  }

  ghost function HandedLinks(q: LeafQuery<AccountGroupRow>, ids: seq<Id>, account: Id, db: Database)
    : seq<AccountGroupRow>
  {
    WithKey(LinkAccount, account, LeafRows(q, LinkAccount, ids, db.accountGroups(q.order)))
  }

  /******* What a run leaves behind in the queries of its edges *******/

  function LeafAfter<R>(q: LeafQuery<R>, key: R -> Option<Id>, ids: seq<Id>): LeafQuery<R> {
    q.(keep := (r: R) => q.keep(r) && key(r).Some? && key(r).value in ids)
  }

  /**
   The query tree after a run that found these rows: every load appended its predicate to its edge query.  A run without
   rows loads nothing, and neither does a to-one load without keys.  What stays of a groups query is not modelled.
   */
  ghost function After(q: AccountQuery, rows: seq<AccountRow>, db: Database): AccountQuery
    decreases Depth(q), 1
  {
    if rows == [] then q else AfterNodes(q, FreshNodes(q, rows), db)
  }

  ghost function AfterNodes(q: AccountQuery, nodes: seq<Account>, db: Database): AccountQuery
    decreases Depth(q), 0
  {
    var ids, proxies, parents := Ids(nodes), KeysOf(ProxyKey, nodes), KeysOf(ParentKey, nodes);
    q.(withProxy := if q.withProxy.None? then None else Some(ProxyAfter(q.withProxy.value, proxies)),
       withParent := if q.withParent.None? then None else Some(ParentAfter(q.withParent.value, parents, db)),
       withChildren := if q.withChildren.None? then None else Some(ChildrenAfter(q.withChildren.value, ids, db)),
       withUsageLogs := if q.withUsageLogs.None? then None
                        else Some(LeafAfter(q.withUsageLogs.value, UsageLogAccount, ids)),
       withAccountGroups := if q.withAccountGroups.None? then None
                            else Some(LeafAfter(q.withAccountGroups.value, LinkAccount, ids)))
  }

  function ProxyAfter(q: LeafQuery<ProxyRow>, ids: seq<Id>): LeafQuery<ProxyRow> {
    if ids == [] then q else LeafAfter(q, ProxyId, ids)
  }

  ghost function ParentAfter(q: AccountQuery, ids: seq<Id>, db: Database): AccountQuery
    decreases Depth(q), 2
  {
    if ids == [] then q
    else After(q, QueryRows(q, [IDIn(ids)], db), db).(predicates := q.predicates + [IDIn(ids)])
  }

  ghost function ChildrenAfter(q: AccountQuery, ids: seq<Id>, db: Database): AccountQuery
    decreases Depth(q), 2
  {
    After(Keyed(q), QueryRows(Keyed(q), [ParentIn(ids)], db), db).(predicates := q.predicates + [ParentIn(ids)])
  }

  /** Loading edges leaves the decoded rows alone. */
  lemma LoadedRows(q: AccountQuery, rows: seq<AccountRow>, db: Database)
    ensures |Loaded(q, rows, db)| == |rows|
    ensures forall i :: 0 <= i < |rows| ==> Loaded(q, rows, db)[i].row == Decode(q, rows[i])
  {
    var nodes, ns := FreshNodes(q, rows), Loaded(q, rows, db);
    forall i | 0 <= i < |rows| ensures ns[i].row == Decode(q, rows[i]) {
      assert ns[i] == LoadedNode(q, nodes, nodes[i], db);
    }
  }

  /** A window holds nothing but elements of what it is cut from. */
  lemma WindowMembers<T>(limit: Option<nat>, offset: nat, s: seq<T>)
    ensures forall x :: x in Window(limit, offset, s) ==> x in s
  {
  }

  lemma {:induction false} SameKeys(key: AccountRow -> Option<Id>, a: seq<Account>, b: seq<Account>)
    requires |a| == |b| && forall i :: 0 <= i < |a| ==> a[i].row == b[i].row
    ensures KeysOf(key, a) == KeysOf(key, b)
  {
    if a != [] {
      SameKeys(key, Init(a), Init(b));
    }
  }
}
