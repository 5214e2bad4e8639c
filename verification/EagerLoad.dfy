/**
 The batched eager loader: one query for the accounts, one per requested edge, and hash maps that stitch the
 neighbours back.  A pointer to a node is its index in the `nodes` array; a neighbour is never written after its
 own query returned, so it is a value.
 */
module EagerLoad {
  import opened Prelude
  import opened EagerModel

  datatype LoadError = UnexpectedNode(id: Id) | NilForeignKey

  /******* What the loaders build *******/

  /** Every neighbour handed to one node, in order. */
  ghost function AssignAll<E>(assign: (Account, E) -> Account, a: Account, es: seq<E>): Account {
    if es == [] then a else assign(AssignAll(assign, a, Init(es)), Last(es))
  }

  ghost predicate KeepsRow<E(!new)>(assign: (Account, E) -> Account) {
    forall a, e :: assign(a, e).row == a.row
  }

  /** The positions of the nodes whose key is `k`, in node order. */
  ghost function IndicesWith(key: AccountRow -> Option<Id>, nodes: seq<Account>, k: Id): seq<nat> {
    if nodes == [] then []
    else if key(Last(nodes).row) == Some(k) then IndicesWith(key, Init(nodes), k) + [|nodes| - 1]
    else IndicesWith(key, Init(nodes), k)
  }

  /** The distinct keys of the nodes, in order of first appearance. */
  ghost function KeysOf(key: AccountRow -> Option<Id>, nodes: seq<Account>): seq<Id> {
    if nodes == [] then []
    else
      var r := KeysOf(key, Init(nodes));
      var k := key(Last(nodes).row);
      if k.Some? && k.value !in r then r + [k.value] else r
  }

  /** A bucket holds exactly the nodes with its key, in increasing position. */
  lemma {:induction false} BucketMeaning(key: AccountRow -> Option<Id>, nodes: seq<Account>, k: Id)
    ensures forall i: int :: i in IndicesWith(key, nodes, k) <==> 0 <= i < |nodes| && key(nodes[i].row) == Some(k)
    ensures forall a, b :: 0 <= a < b < |IndicesWith(key, nodes, k)| ==>
              IndicesWith(key, nodes, k)[a] < IndicesWith(key, nodes, k)[b]
  {
    if nodes != [] {
      BucketMeaning(key, Init(nodes), k);
      var r := IndicesWith(key, Init(nodes), k);
      assert forall a :: 0 <= a < |r| ==> r[a] in r;
    }
  }

  lemma KeysSnoc(key: AccountRow -> Option<Id>, s: seq<Account>, a: Account)
    ensures var r := KeysOf(key, s);
            var k := key(a.row);
            KeysOf(key, s + [a]) == if k.Some? && k.value !in r then r + [k.value] else r
  {
    assert Init(s + [a]) == s;
  }

  /** The batch asks for every key once, and for nothing else. */
  lemma {:induction false} KeysMeaning(key: AccountRow -> Option<Id>, nodes: seq<Account>)
    ensures NoDuplicates(KeysOf(key, nodes))
    ensures forall k :: k in KeysOf(key, nodes) <==> exists i :: 0 <= i < |nodes| && key(nodes[i].row) == Some(k)
  {
    if nodes != [] {
      KeysMeaning(key, Init(nodes));
      assert forall i :: 0 <= i < |nodes| ==> nodes[i] == if i < |nodes| - 1 then Init(nodes)[i] else Last(nodes);
    }
  }

  /** The neighbours a node with key `k` is entitled to. */
  ghost function Matching<E>(idOf: E -> Option<Id>, k: Option<Id>, s: seq<E>): seq<E> {
    if k.Some? then WithKey(idOf, k.value, s) else []
  }

  lemma AssignStep<E(!new)>(assign: (Account, E) -> Account, a: Account, idOf: E -> Option<Id>, k: Option<Id>,
                            s: seq<E>, n: E)
    requires idOf(n).Some?
    ensures AssignAll(assign, a, Matching(idOf, k, s + [n])) ==
            if idOf(n) == k then assign(AssignAll(assign, a, Matching(idOf, k, s)), n)
            else AssignAll(assign, a, Matching(idOf, k, s))
  {
    assert Init(s + [n]) == s;
    if idOf(n) == k {
      assert Init(WithKey(idOf, k.value, s) + [n]) == WithKey(idOf, k.value, s);
    }
  }

  /** Where the to-many index points for an identifier: the last node that carries it. */
  ghost predicate IsLastWithId(nodes: seq<Account>, i: int) {
    0 <= i < |nodes| && forall j :: i < j < |nodes| ==> nodes[j].row.id != nodes[i].row.id
  }

  ghost predicate IndexesById(nodes: seq<Account>, nodeids: map<Id, nat>) {
    && (forall k :: k in nodeids ==>
          0 <= nodeids[k] < |nodes| && IsLastWithId(nodes, nodeids[k]) && nodes[nodeids[k]].row.id == k)
    && (forall i :: 0 <= i < |nodes| ==> nodes[i].row.id in nodeids)
  }

  function Ids(nodes: seq<Account>): seq<Id> {
    seq(|nodes|, i requires 0 <= i < |nodes| => nodes[i].row.id)
  }

  /** The list a to-many load gives to node `i`. */
  ghost function Attached<E>(nodes: seq<Account>, i: nat, fk: E -> Option<Id>, neighbours: seq<E>): seq<E>
    requires i < |nodes|
  {
    if IsLastWithId(nodes, i) then WithKey(fk, nodes[i].row.id, neighbours) else []
  }

  /******* To-one loading *******/

  /** The buckets partition exactly the nodes that have a key. */
  ghost predicate BucketsOf(key: AccountRow -> Option<Id>, nodes: seq<Account>, buckets: map<Id, seq<nat>>) {
    && (forall k :: k in buckets <==> k in KeysOf(key, nodes))
    && (forall k :: k in buckets ==> buckets[k] == IndicesWith(key, nodes, k))
    && (forall k :: k !in buckets ==> IndicesWith(key, nodes, k) == [])
  }

  function Bucketed(key: AccountRow -> Option<Id>, buckets: map<Id, seq<nat>>, a: Account, i: nat): map<Id, seq<nat>> {
    var fk := key(a.row);
    if fk.None? then buckets
    else if fk.value in buckets then buckets[fk.value := buckets[fk.value] + [i]]
    else buckets[fk.value := [i]]
  }

  lemma BucketsSnoc(key: AccountRow -> Option<Id>, s: seq<Account>, a: Account, buckets: map<Id, seq<nat>>)
    requires BucketsOf(key, s, buckets)
    ensures BucketsOf(key, s + [a], Bucketed(key, buckets, a, |s|))
  {
    KeysSnoc(key, s, a);
    assert Init(s + [a]) == s;
  }

  /** First pass of loadProxy and loadParent. */
  method CollectKeys(nodes: seq<Account>, key: AccountRow -> Option<Id>)
    returns (ids: seq<Id>, buckets: map<Id, seq<nat>>)
    ensures ids == KeysOf(key, nodes)
    ensures BucketsOf(key, nodes, buckets)
  {
    ids, buckets := [], map[];
    for i := 0 to |nodes|
      invariant ids == KeysOf(key, nodes[..i])
      invariant BucketsOf(key, nodes[..i], buckets)
    {
      assert nodes[..i + 1] == nodes[..i] + [nodes[i]];
      KeysSnoc(key, nodes[..i], nodes[i]);
      BucketsSnoc(key, nodes[..i], nodes[i], buckets);
      var fk := key(nodes[i].row);
      if fk.Some? {
        var k: Id := fk.value;
        if k !in buckets {
          ids := ids + [k];
        }
        buckets := buckets[k := (if k in buckets then buckets[k] else []) + [i]];
      }
    }
    assert nodes[..|nodes|] == nodes;
  }

  /** Hands one neighbour to every node of its bucket. */
  method AssignBucket<E(!new)>(nodes: array<Account>, bucket: seq<nat>, n: E, assign: (Account, E) -> Account)
    requires forall t :: 0 <= t < |bucket| ==> bucket[t] < nodes.Length
    requires NoDuplicates(bucket)
    modifies nodes
    ensures forall i :: 0 <= i < nodes.Length ==>
              nodes[i] == if i in bucket then assign(old(nodes[i]), n) else old(nodes[i])
  {
    for t := 0 to |bucket|
      invariant forall i :: 0 <= i < nodes.Length ==>
                  nodes[i] == if i in bucket[..t] then assign(old(nodes[i]), n) else old(nodes[i])
    {
      nodes[bucket[t]] := assign(nodes[bucket[t]], n);
      assert bucket[..t + 1] == bucket[..t] + [bucket[t]];
    }
    assert bucket[..|bucket|] == bucket;
  }

  /** Last pass of loadProxy and loadParent: every neighbour goes to its bucket, an unknown one is an error. */
  method AttachOne<E(!new)>(nodes: array<Account>, ghost key: AccountRow -> Option<Id>, buckets: map<Id, seq<nat>>,
                            neighbours: seq<E>, idOf: E -> Option<Id>, assign: (Account, E) -> Account)
    returns (err: Option<LoadError>)
    requires BucketsOf(key, nodes[..], buckets)
    requires KeepsRow(assign)
    requires forall n: E :: idOf(n).Some?
    modifies nodes
    ensures err.None? <==> forall n :: n in neighbours ==> idOf(n).value in buckets
    ensures err.None? ==> forall i :: 0 <= i < nodes.Length ==>
              nodes[i] == AssignAll(assign, old(nodes[i]), Matching(idOf, key(old(nodes[i]).row), neighbours))
  {
    ghost var was := nodes[..];
    for m := 0 to |neighbours|
      invariant forall n :: n in neighbours[..m] ==> idOf(n).value in buckets
      invariant forall i :: 0 <= i < nodes.Length ==>
                  nodes[i] == AssignAll(assign, was[i], Matching(idOf, key(was[i].row), neighbours[..m]))
    {
      var n := neighbours[m];
      var k := idOf(n).value;
      if k !in buckets {
        return Some(UnexpectedNode(k));
      }
      BucketMeaning(key, was, k);
      assert forall t :: 0 <= t < |buckets[k]| ==> buckets[k][t] in buckets[k];
      ghost var mid := nodes[..];
      AssignBucket(nodes, buckets[k], n, assign);
      assert neighbours[..m + 1] == neighbours[..m] + [n];
      forall i | 0 <= i < nodes.Length
        ensures nodes[i] == AssignAll(assign, was[i], Matching(idOf, key(was[i].row), neighbours[..m + 1]))
      {
        AssignStep(assign, was[i], idOf, key(was[i].row), neighbours[..m], n);
        assert nodes[i] == if i in buckets[k] then assign(mid[i], n) else mid[i];
      }
    }
    assert neighbours[..|neighbours|] == neighbours;
    return None;
  }

  /******* To-many loading *******/

  /** First pass of every to-many load: collects the identifiers, indexes the nodes and empties their lists. */
  method IndexNodes(nodes: array<Account>, init: Account -> Account) returns (fks: seq<Id>, nodeids: map<Id, nat>)
    requires forall a :: init(a).row == a.row
    modifies nodes
    ensures forall i :: 0 <= i < nodes.Length ==> nodes[i] == init(old(nodes[i]))
    ensures fks == Ids(old(nodes[..]))
    ensures IndexesById(old(nodes[..]), nodeids)
  {
    ghost var was := nodes[..];
    fks, nodeids := [], map[];
    for i := 0 to nodes.Length
      invariant forall j :: 0 <= j < nodes.Length ==> nodes[j] == if j < i then init(was[j]) else was[j]
      invariant fks == Ids(was[..i])
      invariant IndexesById(was[..i], nodeids)
    {
      fks := fks + [nodes[i].row.id];
      nodeids := nodeids[nodes[i].row.id := i];
      nodes[i] := init(nodes[i]);
    }
    assert was[..nodes.Length] == was;
  }

  lemma AttachedStep<E(!new)>(assign: (Account, E) -> Account, nodes: seq<Account>, i: nat, fk: E -> Option<Id>,
                              s: seq<E>, n: E, a: Account)
    requires i < |nodes| && fk(n).Some?
    ensures AssignAll(assign, a, Attached(nodes, i, fk, s + [n])) ==
            if IsLastWithId(nodes, i) && fk(n) == Some(nodes[i].row.id)
            then assign(AssignAll(assign, a, Attached(nodes, i, fk, s)), n)
            else AssignAll(assign, a, Attached(nodes, i, fk, s))
  {
    AssignStep(assign, a, fk, Some(nodes[i].row.id), s, n);
  }

  /** Last pass of loadChildren, loadUsageLogs and loadAccountGroups. */
  method AttachMany<E(!new)>(nodes: array<Account>, nodeids: map<Id, nat>, neighbours: seq<E>,
                             fk: E -> Option<Id>, assign: (Account, E) -> Account)
    returns (err: Option<LoadError>)
    requires IndexesById(nodes[..], nodeids)
    requires KeepsRow(assign)
    modifies nodes
    ensures err.None? <==> forall n :: n in neighbours ==> fk(n).Some? && fk(n).value in nodeids
    ensures err.None? ==> forall i :: 0 <= i < nodes.Length ==>
              nodes[i] == AssignAll(assign, old(nodes[i]), Attached(old(nodes[..]), i, fk, neighbours))
  {
    ghost var was := nodes[..];
    for m := 0 to |neighbours|
      invariant forall n :: n in neighbours[..m] ==> fk(n).Some? && fk(n).value in nodeids
      invariant forall i :: 0 <= i < nodes.Length ==>
                  nodes[i] == AssignAll(assign, was[i], Attached(was, i, fk, neighbours[..m]))
    {
      var n := neighbours[m];
      if fk(n).None? {
        return Some(NilForeignKey);
      }
      var k: Id := fk(n).value;
      if k !in nodeids {
        return Some(UnexpectedNode(k));
      }
      ghost var mid := nodes[..];
      nodes[nodeids[k]] := assign(nodes[nodeids[k]], n);
      assert neighbours[..m + 1] == neighbours[..m] + [n];
      forall i | 0 <= i < nodes.Length
        ensures nodes[i] == AssignAll(assign, was[i], Attached(was, i, fk, neighbours[..m + 1]))
      {
        AttachedStep(assign, was, i, fk, neighbours[..m], n, was[i]);
        assert nodes[i] == if i == nodeids[k] then assign(mid[i], n) else mid[i];
      }
    }
    assert neighbours[..|neighbours|] == neighbours;
    return None;
  }

  /******* Many-to-many loading *******/

  function AddGroup(a: Account, g: GroupRow): Account {
    a.(edges := a.edges.(groups := a.edges.groups + [g]))
  }

  function WithGroups(a: Account, gs: seq<GroupRow>): Account {
    a.(edges := a.edges.(groups := gs))
  }

  /** The groups of the join in order of first appearance, each once. */
  ghost function FirstGroups(rows: seq<JoinRow>): seq<GroupRow> {
    if rows == [] then []
    else if HasGroup(Init(rows), Last(rows).group.id) then FirstGroups(Init(rows))
    else FirstGroups(Init(rows)) + [Last(rows).group]
  }

  ghost predicate HasGroup(rows: seq<JoinRow>, g: Id) {
    exists r :: r in rows && r.group.id == g
  }

  ghost predicate HasRow(rows: seq<JoinRow>, account: Id, g: Id) {
    exists r :: r in rows && r.accountID == account && r.group.id == g
  }

  /** Those of `gs` that the join links to the account. */
  ghost function LinkedIn(gs: seq<GroupRow>, rows: seq<JoinRow>, account: Id): seq<GroupRow> {
    if gs == [] then []
    else if HasRow(rows, account, Last(gs).id) then LinkedIn(Init(gs), rows, account) + [Last(gs)]
    else LinkedIn(Init(gs), rows, account)
  }

  /** The list a many-to-many load gives to node `i`. */
  ghost function JoinedGroups(nodes: seq<Account>, i: nat, rows: seq<JoinRow>): seq<GroupRow>
    requires i < |nodes|
  {
    if IsLastWithId(nodes, i) then LinkedIn(FirstGroups(rows), rows, nodes[i].row.id) else []
  }

  /** Which nodes wait for which group. */
  ghost predicate NidsOf(rows: seq<JoinRow>, byID: map<Id, nat>, nids: map<Id, set<nat>>) {
    && (forall g :: g in nids <==> HasGroup(rows, g))
    && (forall g, i :: g in nids ==>
          (i in nids[g] <==> exists r :: r in rows && r.group.id == g && r.accountID in byID && byID[r.accountID] == i))
  }

  /** The wrapped Assign of loadGroups: decodes a group once and records every account that wants it. */
  method DecodeJoin(rows: seq<JoinRow>, byID: map<Id, nat>) returns (nids: map<Id, set<nat>>, neighbours: seq<GroupRow>)
    requires forall r :: r in rows ==> r.accountID in byID
    ensures neighbours == FirstGroups(rows)
    ensures NidsOf(rows, byID, nids)
  {
    nids, neighbours := map[], [];
    for m := 0 to |rows|
      invariant neighbours == FirstGroups(rows[..m])
      invariant NidsOf(rows[..m], byID, nids)
    {
      var r := rows[m];
      assert Init(rows[..m + 1]) == rows[..m] && Last(rows[..m + 1]) == r;
      assert forall x :: x in rows[..m + 1] <==> x in rows[..m] || x == r;
      var g := r.group.id;
      if g !in nids {
        nids := nids[g := {byID[r.accountID]}];
        neighbours := neighbours + [r.group];
      } else {
        nids := nids[g := nids[g] + {byID[r.accountID]}];
      }
    }
    assert rows[..|rows|] == rows;
  }

  /** Ranges over a set of nodes in whatever order the map iteration picks. */
  method AssignSet(nodes: array<Account>, waiting: set<nat>, g: GroupRow)
    requires forall i :: i in waiting ==> i < nodes.Length
    modifies nodes
    ensures forall i :: 0 <= i < nodes.Length ==>
              nodes[i] == if i in waiting then AddGroup(old(nodes[i]), g) else old(nodes[i])
  {
    var todo := waiting;
    while todo != {}
      invariant todo <= waiting
      invariant forall i :: 0 <= i < nodes.Length ==>
                  nodes[i] == if i in waiting - todo then AddGroup(old(nodes[i]), g) else old(nodes[i])
    {
      var kn :| kn in todo;
      nodes[kn] := AddGroup(nodes[kn], g);
      todo := todo - {kn};
    }
  }

  ghost function Received(nids: map<Id, set<nat>>, i: nat, gs: seq<GroupRow>): seq<GroupRow> {
    if gs == [] then []
    else if Last(gs).id in nids && i in nids[Last(gs).id] then Received(nids, i, Init(gs)) + [Last(gs)]
    else Received(nids, i, Init(gs))
  }

  /** Last pass of loadGroups. */
  method FanOut(nodes: array<Account>, nids: map<Id, set<nat>>, neighbours: seq<GroupRow>)
    returns (err: Option<LoadError>)
    requires forall g, i :: g in nids && i in nids[g] ==> i < nodes.Length
    modifies nodes
    ensures err.None? <==> forall n :: n in neighbours ==> n.id in nids
    ensures err.None? ==> forall i :: 0 <= i < nodes.Length ==>
              nodes[i] == WithGroups(old(nodes[i]), old(nodes[i]).edges.groups + Received(nids, i, neighbours))
  {
    ghost var was := nodes[..];
    for m := 0 to |neighbours|
      invariant forall n :: n in neighbours[..m] ==> n.id in nids
      invariant forall i :: 0 <= i < nodes.Length ==>
                  nodes[i] == WithGroups(was[i], was[i].edges.groups + Received(nids, i, neighbours[..m]))
    {
      var n := neighbours[m];
      if n.id !in nids {
        return Some(UnexpectedNode(n.id));
      }
      ghost var mid := nodes[..];
      AssignSet(nodes, nids[n.id], n);
      assert Init(neighbours[..m + 1]) == neighbours[..m] && Last(neighbours[..m + 1]) == n;
      forall i | 0 <= i < nodes.Length
        ensures nodes[i] == WithGroups(was[i], was[i].edges.groups + Received(nids, i, neighbours[..m + 1]))
      {
        assert nodes[i] == if i in nids[n.id] then AddGroup(mid[i], n) else mid[i];
        if i in nids[n.id] {
          assert was[i].edges.groups + (Received(nids, i, neighbours[..m]) + [n]) ==
                 was[i].edges.groups + Received(nids, i, neighbours[..m]) + [n];
        }
      }
    }
    assert neighbours[..|neighbours|] == neighbours;
    return None;
  }

  /** A node receives the groups its own identifier is linked to, or none when a later node carries the same one. */
  lemma {:induction false} ReceivedIsLinked(nodes: seq<Account>, i: nat, rows: seq<JoinRow>, byID: map<Id, nat>,
                                            nids: map<Id, set<nat>>, gs: seq<GroupRow>)
    requires i < |nodes| && IndexesById(nodes, byID) && NidsOf(rows, byID, nids)
    ensures Received(nids, i, gs) == if IsLastWithId(nodes, i) then LinkedIn(gs, rows, nodes[i].row.id) else []
  {
    if gs != [] {
      ReceivedIsLinked(nodes, i, rows, byID, nids, Init(gs));
      var g := Last(gs).id;
      var id := nodes[i].row.id;
      assert g in nids && i in nids[g] <==> IsLastWithId(nodes, i) && HasRow(rows, id, g) by {
        if IsLastWithId(nodes, i) {
          assert byID[id] == i;
          if HasRow(rows, id, g) {
            var r :| r in rows && r.accountID == id && r.group.id == g;
            assert HasGroup(rows, g);
          }
        }
      }
    }
  }

  lemma {:induction false} FirstGroupsMeaning(rows: seq<JoinRow>)
    ensures forall g :: g in FirstGroups(rows) ==> HasGroup(rows, g.id)
    ensures forall k :: HasGroup(rows, k) ==> exists g :: g in FirstGroups(rows) && g.id == k
    ensures forall i, j :: 0 <= i < j < |FirstGroups(rows)| ==> FirstGroups(rows)[i].id != FirstGroups(rows)[j].id
  {
    if rows != [] {
      FirstGroupsMeaning(Init(rows));
      var p := FirstGroups(Init(rows));
      assert forall g :: HasGroup(rows, g) <==> HasGroup(Init(rows), g) || g == Last(rows).group.id;
      assert forall i :: 0 <= i < |p| ==> p[i] in p;
      assert Last(rows).group in FirstGroups(rows) || HasGroup(Init(rows), Last(rows).group.id);
      forall k | HasGroup(rows, k) ensures exists g :: g in FirstGroups(rows) && g.id == k {
        if HasGroup(Init(rows), k) {
          var g :| g in p && g.id == k;
          assert g in FirstGroups(rows);
        }
      }
    }
  }

  lemma {:induction false} LinkedInMembers(gs: seq<GroupRow>, rows: seq<JoinRow>, account: Id)
    ensures forall g :: g in LinkedIn(gs, rows, account) <==> g in gs && HasRow(rows, account, g.id)
  {
    if gs != [] {
      LinkedInMembers(Init(gs), rows, account);
      assert gs == Init(gs) + [Last(gs)];
    }
  }

  /** A list holds exactly the groups a join row links to the account, each once, in the given order. */
  lemma {:induction false} LinkedInMeaning(gs: seq<GroupRow>, rows: seq<JoinRow>, account: Id)
    requires forall i, j :: 0 <= i < j < |gs| ==> gs[i].id != gs[j].id
    ensures forall g :: g in LinkedIn(gs, rows, account) <==> g in gs && HasRow(rows, account, g.id)
    ensures forall i, j :: 0 <= i < j < |LinkedIn(gs, rows, account)| ==>
              LinkedIn(gs, rows, account)[i].id != LinkedIn(gs, rows, account)[j].id
  {
    LinkedInMembers(gs, rows, account);
    if gs != [] {
      var init, last := Init(gs), Last(gs);
      var p := LinkedIn(init, rows, account);
      LinkedInMeaning(init, rows, account);
      forall i | 0 <= i < |p| ensures p[i].id != last.id {
        assert p[i] in p;
        var k :| 0 <= k < |init| && init[k] == p[i];
      }
    }
  }

  /**
   loadGroups after its query returned: whatever the join order and whatever order the inner map is ranged over,
   every account receives each group it is linked to once, in order of first appearance in the join.
   */
  method StitchGroups(nodes: array<Account>, byID: map<Id, nat>, rows: seq<JoinRow>) returns (err: Option<LoadError>)
    requires IndexesById(nodes[..], byID)
    requires forall r :: r in rows ==> r.accountID in byID
    requires forall i :: 0 <= i < nodes.Length ==> nodes[i].edges.groups == []
    modifies nodes
    ensures err.None?
    ensures forall i :: 0 <= i < nodes.Length ==>
              nodes[i] == WithGroups(old(nodes[i]), JoinedGroups(old(nodes[..]), i, rows))
  {
    ghost var was := nodes[..];
    var nids, neighbours := DecodeJoin(rows, byID);
    FirstGroupsMeaning(rows);
    err := FanOut(nodes, nids, neighbours);
    forall i | 0 <= i < nodes.Length ensures nodes[i] == WithGroups(was[i], JoinedGroups(was, i, rows)) {
      ReceivedIsLinked(was, i, rows, byID, nids, neighbours);
      assert was[i].edges.groups + Received(nids, i, neighbours) == Received(nids, i, neighbours);
    }
  }
}
