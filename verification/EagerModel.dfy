/**
 Accounts, their edges, the query tree and the database, together with the simple meaning of a query:
 one query per account and per edge.  EagerBatch holds the batched meaning it is compared with.
 */
module EagerModel {
  import opened Prelude

  type Id = int
  type Order = nat
  type Attributes = map<string, string>

  datatype Column = ColID | ColProxyID | ColParentAccountID | ColOther(name: string)

  datatype AccountRow = AccountRow(id: Id, proxyID: Option<Id>, parentAccountID: Option<Id>, attrs: Attributes)
  datatype GroupRow = GroupRow(id: Id, attrs: Attributes)
  datatype ProxyRow = ProxyRow(id: Id, attrs: Attributes)
  datatype UsageLogRow = UsageLogRow(id: Id, accountID: Id, attrs: Attributes)
  datatype AccountGroupRow = AccountGroupRow(accountID: Id, groupID: Id, attrs: Attributes)

  /** One row of the groups query after the join: the account column, then the group's columns. */
  datatype JoinRow = JoinRow(accountID: Id, group: GroupRow)

  datatype Edge = Groups | Proxy | Parent | Children | UsageLogs | AccountGroups

  datatype AccountEdges = AccountEdges(
    groups: seq<GroupRow>,
    proxy: Option<ProxyRow>,
    parent: Option<Account>,
    children: seq<Account>,
    usageLogs: seq<UsageLogRow>,
    accountGroups: seq<AccountGroupRow>,
    loadedTypes: set<Edge>)

  datatype Account = Account(row: AccountRow, edges: AccountEdges)

  datatype EdgeError = NotLoaded(edge: Edge) | NotFound(edge: Edge)

  /******* Queries *******/

  datatype AccountPred = Where(f: AccountRow -> bool) | IDIn(ids: seq<Id>) | ParentIn(ids: seq<Id>)

  /** The query of an edge whose own nested edges are outside the model. */
  datatype LeafQuery<!R> = LeafQuery(keep: R -> bool, order: Order, limit: Option<nat>, offset: nat)

  datatype AccountQuery = AccountQuery(
    predicates: seq<AccountPred>,
    order: Order,
    fields: seq<Column>,
    limit: Option<nat>,
    offset: nat,
    withGroups: Option<LeafQuery<GroupRow>>,
    withProxy: Option<LeafQuery<ProxyRow>>,
    withParent: Option<AccountQuery>,
    withChildren: Option<AccountQuery>,
    withUsageLogs: Option<LeafQuery<UsageLogRow>>,
    withAccountGroups: Option<LeafQuery<AccountGroupRow>>)

  /** Each table is known by the sequence of all its rows, for every order a query may ask for. */
  datatype Database = Database(
    accounts: Order -> seq<AccountRow>,
    groups: Order -> seq<GroupRow>,
    proxies: Order -> seq<ProxyRow>,
    usageLogs: Order -> seq<UsageLogRow>,
    accountGroups: Order -> seq<AccountGroupRow>)

  /** Rows are unique by their primary keys. */
  ghost predicate ValidDatabase(db: Database) {
    && (forall o, i, j :: 0 <= i < j < |db.accounts(o)| ==> db.accounts(o)[i].id != db.accounts(o)[j].id)
    && (forall o, i, j :: 0 <= i < j < |db.groups(o)| ==> db.groups(o)[i].id != db.groups(o)[j].id)
    && (forall o, i, j :: 0 <= i < j < |db.proxies(o)| ==> db.proxies(o)[i].id != db.proxies(o)[j].id)
    && (forall o, i, j :: 0 <= i < j < |db.usageLogs(o)| ==> db.usageLogs(o)[i].id != db.usageLogs(o)[j].id)
    && (forall o :: DistinctLinks(db.accountGroups(o)))
  }

  /** The key of the join table is the pair of its foreign keys. */
  ghost predicate DistinctLinks(links: seq<AccountGroupRow>) {
    forall i, j :: 0 <= i < j < |links| ==>
      links[i].accountID != links[j].accountID || links[i].groupID != links[j].groupID
  }

  /** How deeply account queries nest. */
  ghost function Depth(q: AccountQuery): nat {
    var p := if q.withParent.Some? then Depth(q.withParent.value) else 0;
    var c := if q.withChildren.Some? then Depth(q.withChildren.value) else 0;
    1 + if p < c then c else p
  }

  /******* Rows of a query *******/

  predicate Holds(p: AccountPred, r: AccountRow) {
    match p
    case Where(f) => f(r)
    case IDIn(ids) => r.id in ids
    case ParentIn(ids) => r.parentAccountID.Some? && r.parentAccountID.value in ids
  }

  predicate Satisfies(ps: seq<AccountPred>, r: AccountRow) {
    forall i :: 0 <= i < |ps| ==> Holds(ps[i], r)
  }

  function Select(ps: seq<AccountPred>, table: seq<AccountRow>): seq<AccountRow> {
    if table == [] then []
    else if Satisfies(ps, Last(table)) then Select(ps, Init(table)) + [Last(table)]
    else Select(ps, Init(table))
  }

  /** The LIMIT of the statement: zero stands for none, and an offset without a limit brings one of its own. */
  function Cap(limit: Option<nat>, offset: nat): Option<nat> {
    if limit.Some? && limit.value != 0 then limit else if offset != 0 then Some(MAX_INT32) else None
  }

  /** Where a result of `n` rows ends after LIMIT and OFFSET. */
  function End(limit: Option<nat>, offset: nat, n: nat): nat {
    var cap := Cap(limit, offset);
    if cap.Some? && offset + cap.value < n then offset + cap.value else n
  }

  function Window<T>(limit: Option<nat>, offset: nat, s: seq<T>): seq<T> {
    if |s| <= offset then [] else s[offset..End(limit, offset, |s|)]
  }

  function QueryRows(q: AccountQuery, extra: seq<AccountPred>, db: Database): seq<AccountRow> {
    Window(q.limit, q.offset, Select(q.predicates + extra, db.accounts(q.order)))
  }

  /** The rows of an edge table whose key is one of `ids`, in table order. */
  function Batch<R>(keep: R -> bool, key: R -> Option<Id>, ids: seq<Id>, table: seq<R>): seq<R> {
    if table == [] then []
    else
      var rest := Batch(keep, key, ids, Init(table));
      var k := key(Last(table));
      if keep(Last(table)) && k.Some? && k.value in ids then rest + [Last(table)] else rest
  }

  /** What the query of such an edge returns. */
  function LeafRows<R>(q: LeafQuery<R>, key: R -> Option<Id>, ids: seq<Id>, table: seq<R>): seq<R> {
    Window(q.limit, q.offset, Batch(q.keep, key, ids, table))
  }

  /** The elements of `s` whose key is `k`, in order. */
  function WithKey<E>(key: E -> Option<Id>, k: Id, s: seq<E>): seq<E> {
    if s == [] then []
    else if key(Last(s)) == Some(k) then WithKey(key, k, Init(s)) + [Last(s)]
    else WithKey(key, k, Init(s))
  }

  /** The rows of the groups query joined to the links of the accounts in `ids`. */
  function JoinRows(keep: GroupRow -> bool, table: seq<GroupRow>, links: seq<AccountGroupRow>, ids: seq<Id>)
    : seq<JoinRow>
  {
    if table == [] then []
    else
      var rest := JoinRows(keep, Init(table), links, ids);
      if keep(Last(table)) then rest + LinkRows(Last(table), links, ids) else rest
  }

  function LinkRows(g: GroupRow, links: seq<AccountGroupRow>, ids: seq<Id>): seq<JoinRow> {
    if links == [] then []
    else
      var l := Last(links);
      var rest := LinkRows(g, Init(links), ids);
      if l.groupID == g.id && l.accountID in ids then rest + [JoinRow(l.accountID, g)] else rest
  }

  function GroupJoin(q: LeafQuery<GroupRow>, db: Database, ids: seq<Id>): seq<JoinRow> {
    JoinRows(q.keep, db.groups(q.order), db.accountGroups(0), ids)
  }

  /******* Decoding *******/

  /** The columns the node query asks for when the caller selected some. */
  function SpecColumns(q: AccountQuery): seq<Column> {
    var cols := [ColID] + OtherThanID(q.fields);
    var cols := if q.withProxy.Some? then AddColumnOnce(cols, ColProxyID) else cols;
    if q.withParent.Some? then AddColumnOnce(cols, ColParentAccountID) else cols
  }

  function OtherThanID(fields: seq<Column>): seq<Column> {
    if fields == [] then []
    else if Last(fields) != ColID then OtherThanID(Init(fields)) + [Last(fields)]
    else OtherThanID(Init(fields))
  }

  function AddColumnOnce(cols: seq<Column>, c: Column): seq<Column> {
    if c in cols then cols else cols + [c]
  }

  predicate Selects(q: AccountQuery, c: Column) {
    q.fields == [] || c in SpecColumns(q)
  }

  /** A fresh node holds what its row says in the selected columns and zero values elsewhere. */
  function Decode(q: AccountQuery, r: AccountRow): AccountRow {
    AccountRow(r.id,
               if Selects(q, ColProxyID) then r.proxyID else None,
               if Selects(q, ColParentAccountID) then r.parentAccountID else None,
               map a | a in r.attrs && Selects(q, ColOther(a)) :: r.attrs[a])
  }

  /** The query a children load runs: the key column joins an explicit selection once. */
  function Keyed(q: AccountQuery): (r: AccountQuery)
    ensures Depth(r) == Depth(q)
  {
    if q.fields != [] then q.(fields := AddColumnOnce(q.fields, ColParentAccountID)) else q
  }

  function Requested(q: AccountQuery): set<Edge> {
    (if q.withGroups.Some? then {Groups} else {}) +
    (if q.withProxy.Some? then {Proxy} else {}) +
    (if q.withParent.Some? then {Parent} else {}) +
    (if q.withChildren.Some? then {Children} else {}) +
    (if q.withUsageLogs.Some? then {UsageLogs} else {}) +
    (if q.withAccountGroups.Some? then {AccountGroups} else {})
  }

  /** A node as the scan leaves it, before any edge is loaded. */
  function Fresh(q: AccountQuery, r: AccountRow): Account {
    Account(Decode(q, r), NoEdges(Requested(q)))
  }

  function NoEdges(loaded: set<Edge>): AccountEdges {
    AccountEdges([], None, None, [], [], [], loaded)
  }

  /******* Keys *******/

  function ProxyKey(r: AccountRow): Option<Id> { r.proxyID }
  function ParentKey(r: AccountRow): Option<Id> { r.parentAccountID }
  function RowId(r: AccountRow): Option<Id> { Some(r.id) }
  function AccountId(a: Account): Option<Id> { Some(a.row.id) }
  function AccountParent(a: Account): Option<Id> { a.row.parentAccountID }
  function ProxyId(p: ProxyRow): Option<Id> { Some(p.id) }
  function UsageLogAccount(u: UsageLogRow): Option<Id> { Some(u.accountID) }
  function LinkAccount(l: AccountGroupRow): Option<Id> { Some(l.accountID) }
  function JoinAccount(j: JoinRow): Option<Id> { Some(j.accountID) }

  /******* The simple meaning: one query per account and edge *******/

  function First<T>(s: seq<T>): Option<T> {
    if s == [] then None else Some(s[0])
  }

  /** What the query returns when every edge is asked for account by account. */
  ghost function Simple(q: AccountQuery, extra: seq<AccountPred>, db: Database): seq<Account>
    decreases Depth(q), 2
  {
    NodesOf(q, QueryRows(q, extra, db), db)
  }

  ghost function NodesOf(q: AccountQuery, rows: seq<AccountRow>, db: Database): seq<Account>
    decreases Depth(q), 1
  {
    seq(|rows|, i requires 0 <= i < |rows| => Node(q, rows[i], db))
  }

  ghost function Node(q: AccountQuery, r: AccountRow, db: Database): Account
    decreases Depth(q), 0
  {
    Account(Decode(q, r), AccountEdges(
              if q.withGroups.Some? then GroupsOf(q.withGroups.value, r.id, db) else [],
              if q.withProxy.Some? then ProxyOf(q.withProxy.value, r.proxyID, db) else None,
              if q.withParent.Some? then ParentOf(q.withParent.value, r.parentAccountID, db) else None,
              if q.withChildren.Some? then ChildrenOf(q.withChildren.value, r.id, db) else [],
              if q.withUsageLogs.Some? then UsageLogsOf(q.withUsageLogs.value, r.id, db) else [],
              if q.withAccountGroups.Some? then LinksOf(q.withAccountGroups.value, r.id, db) else [],
              Requested(q)))
  }

  /** The groups linked to one account, in the order of the group query. */
  ghost function GroupsOf(q: LeafQuery<GroupRow>, account: Id, db: Database): seq<GroupRow> {
    Window(q.limit, q.offset, LinkedGroups(q.keep, db.groups(q.order), db.accountGroups(0), account))
  }

  ghost function LinkedGroups(keep: GroupRow -> bool, table: seq<GroupRow>, links: seq<AccountGroupRow>, account: Id)
    : seq<GroupRow>
  {
    if table == [] then []
    else
      var rest := LinkedGroups(keep, Init(table), links, account);
      if keep(Last(table)) && Linked(links, account, Last(table).id) then rest + [Last(table)] else rest
  }

  ghost predicate Linked(links: seq<AccountGroupRow>, account: Id, group: Id) {
    exists l :: l in links && l.accountID == account && l.groupID == group
  }

  ghost function ProxyOf(q: LeafQuery<ProxyRow>, key: Option<Id>, db: Database): Option<ProxyRow> {
    if key.None? then None else First(LeafRows(q, ProxyId, [key.value], db.proxies(q.order)))
  }

  ghost function ParentOf(q: AccountQuery, key: Option<Id>, db: Database): Option<Account>
    decreases Depth(q), 3
  {
    if key.None? then None else First(Simple(q, [IDIn([key.value])], db))
  }

  ghost function ChildrenOf(q: AccountQuery, account: Id, db: Database): seq<Account>
    decreases Depth(q), 3
  {
    Simple(Keyed(q), [ParentIn([account])], db)
  }

  ghost function UsageLogsOf(q: LeafQuery<UsageLogRow>, account: Id, db: Database): seq<UsageLogRow> {
    LeafRows(q, UsageLogAccount, [account], db.usageLogs(q.order))
  }

  ghost function LinksOf(q: LeafQuery<AccountGroupRow>, account: Id, db: Database): seq<AccountGroupRow> {
    LeafRows(q, LinkAccount, [account], db.accountGroups(q.order))
  }
}
