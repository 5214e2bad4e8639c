/**
 Running one builder twice.  Every load appends to its edge query: the predicate with the identifiers of the first run
 stays there, at every depth of the tree.  When does a second run, for other accounts, still return the right edges?
 Group queries are left out: their predicate joins and selects again each time it is applied.
 */
module EagerRerun {
  import opened Prelude
  import opened EagerModel
  import opened EagerLoad
  import opened EagerSplit
  import opened EagerBatch
  import opened EagerWindow
  import opened EagerSqlAll
  import opened EagerAgree
  import opened EagerLaws

  /******* What a run leaves behind *******/

  /** The query of an account edge after it was asked for `ids`. */
  ghost function EdgeAfter(e: EdgeKey, q: AccountQuery, ids: seq<Id>, db: Database): AccountQuery {
    After(q, CutRows(e, q, ids, db), db).(predicates := q.predicates + [e.many(ids)])
  }

  lemma ParentAfterIsEdge(q: AccountQuery, ids: seq<Id>, db: Database)
    ensures ParentAfter(q, ids, db) == if ids == [] then q else EdgeAfter(PARENT, q, ids, db)
  {
  }

  lemma ChildrenAfterIsEdge(q: AccountQuery, ids: seq<Id>, db: Database)
    ensures ChildrenAfter(q, ids, db) == EdgeAfter(CHILDREN, Keyed(q), ids, db)
  {
  }

  ghost predicate NoGroups(q: AccountQuery) {
    && q.withGroups.None?
    && (q.withParent.Some? ==> NoGroups(q.withParent.value))
    && (q.withChildren.Some? ==> NoGroups(q.withChildren.value))
  }

  /** Trees whose edge queries carry no window and ask for no groups. */
  ghost predicate Plain(q: AccountQuery) {
    EdgesUnlimited(q) && NoGroups(q)
  }

  lemma PlainKeyed(q: AccountQuery)
    requires Plain(q)
    ensures Plain(Keyed(q))
  {
  }

  lemma PlainWith(q: AccountQuery, ps: seq<AccountPred>)
    requires Plain(q)
    ensures Plain(q.(predicates := ps))
  {
  }

  /** A run changes nothing about the query itself: which rows it returns and how they are decoded. */
  lemma AfterTop(q: AccountQuery, rows: seq<AccountRow>, db: Database)
    ensures var a := After(q, rows, db);
            && a.predicates == q.predicates && a.order == q.order && a.fields == q.fields
            && a.limit == q.limit && a.offset == q.offset && a.withGroups == q.withGroups
            && (a.withProxy.Some? <==> q.withProxy.Some?) && (a.withParent.Some? <==> q.withParent.Some?)
            && (a.withChildren.Some? <==> q.withChildren.Some?) && (a.withUsageLogs.Some? <==> q.withUsageLogs.Some?)
            && (a.withAccountGroups.Some? <==> q.withAccountGroups.Some?)
  {
  }

  lemma AfterRows(q: AccountQuery, rows: seq<AccountRow>, extra: seq<AccountPred>, db: Database)
    ensures QueryRows(After(q, rows, db), extra, db) == QueryRows(q, extra, db)
  {
    AfterTop(q, rows, db);
  }

  lemma AfterDecodes(q: AccountQuery, rows: seq<AccountRow>, r: AccountRow, db: Database)
    ensures Decode(After(q, rows, db), r) == Decode(q, r) && Requested(After(q, rows, db)) == Requested(q)
  {
    AfterTop(q, rows, db);
    assert SpecColumns(After(q, rows, db)) == SpecColumns(q);
  }

  lemma {:induction false} AfterIsPlain(q: AccountQuery, rows: seq<AccountRow>, db: Database)
    requires Plain(q)
    ensures Plain(After(q, rows, db))
    decreases Depth(q), 0
  {
    if rows != [] {
      AfterTop(q, rows, db);
      var nodes, after := FreshNodes(q, rows), After(q, rows, db);
      if q.withParent.Some? {
        var e, ids := q.withParent.value, KeysOf(ParentKey, nodes);
        EdgeAfterIsPlain(PARENT, e, ids, db);
        ParentAfterIsEdge(e, ids, db);
        assert after.withParent == Some(ParentAfter(e, ids, db));
      }
      if q.withChildren.Some? {
        var e, ids := q.withChildren.value, Ids(nodes);
        PlainKeyed(e);
        EdgeAfterIsPlain(CHILDREN, Keyed(e), ids, db);
        ChildrenAfterIsEdge(e, ids, db);
        assert after.withChildren == Some(ChildrenAfter(e, ids, db));
      }
    }
  }

  lemma {:induction false} EdgeAfterIsPlain(e: EdgeKey, q: AccountQuery, ids: seq<Id>, db: Database)
    requires Plain(q)
    ensures Plain(EdgeAfter(e, q, ids, db))
    ensures EdgeAfter(e, q, ids, db).limit == q.limit && EdgeAfter(e, q, ids, db).offset == q.offset
    decreases Depth(q), 1
  {
    var after := After(q, CutRows(e, q, ids, db), db);
    AfterTop(q, CutRows(e, q, ids, db), db);
    AfterIsPlain(q, CutRows(e, q, ids, db), db);
    PlainWith(after, q.predicates + [e.many(ids)]);
  }

  /******* One key after another *******/

  lemma {:induction false} BatchTwice<R(!new)>(q: LeafQuery<R>, key: R -> Option<Id>, first: seq<Id>, k: Id,
                                               table: seq<R>)
    ensures Batch(LeafAfter(q, key, first).keep, key, [k], table) ==
            if k in first then Batch(q.keep, key, [k], table) else []
  {
    if table != [] {
      BatchTwice(q, key, first, k, Init(table));
    }
  }

  /** A leaf query that was run for `first` returns the rows of a key it was run for, and nothing for any other. */
  lemma LeafTwice<R(!new)>(q: LeafQuery<R>, key: R -> Option<Id>, first: seq<Id>, k: Id, table: seq<R>)
    ensures LeafRows(LeafAfter(q, key, first), key, [k], table) ==
            if k in first then LeafRows(q, key, [k], table) else []
  {
    BatchTwice(q, key, first, k, table);
  }

  lemma {:induction false} SelectTwice(e: EdgeKey, q: AccountQuery, first: seq<Id>, k: Id, table: seq<AccountRow>)
    requires ProperKey(e, q)
    ensures Select(q.predicates + [e.many(first)] + [e.one(k)], table) ==
            if k in first then Select(q.predicates + [e.one(k)], table) else []
  {
    if table != [] {
      var r, many, one := Last(table), e.many(first), e.one(k);
      SelectTwice(e, q, first, k, Init(table));
      SatisfiesSnoc(q.predicates + [many], one, r);
      SatisfiesSnoc(q.predicates, many, r);
      SatisfiesSnoc(q.predicates, one, r);
      assert Holds(e.many(first), r) <==> e.row(r).Some? && e.row(r).value in first;
      assert Holds(e.one(k), r) <==> e.row(r) == Some(k);
    }
  }

  /** Predicates choose the rows and say nothing about a node. */
  lemma SameNode(q: AccountQuery, q': AccountQuery, r: AccountRow, db: Database)
    requires q' == q.(predicates := q'.predicates)
    ensures Node(q', r, db) == Node(q, r, db)
  {
    assert Decode(q', r) == Decode(q, r);
    assert Requested(q') == Requested(q);
  }

  /** The rows of one key are among the rows the first run found, if it asked for that key. */
  lemma OwnRowsWereFound(e: EdgeKey, q: AccountQuery, first: seq<Id>, k: Id, db: Database)
    requires ProperKey(e, q) && NoWindow(q.limit, q.offset) && k in first
    ensures forall r :: r in QueryRows(q, [e.one(k)], db) ==> r in CutRows(e, q, first, db)
  {
    var table := db.accounts(q.order);
    var found := Select(q.predicates + [e.many(first)], table);
    WholeWindow(q.limit, found, |found|);
    forall r | r in QueryRows(q, [e.one(k)], db) ensures r in CutRows(e, q, first, db) {
      WindowMembers(q.limit, q.offset, Select(q.predicates + [e.one(k)], table));
      SelectMeaning(q.predicates + [e.one(k)], table);
      SatisfiesSnoc(q.predicates, e.one(k), r);
      SatisfiesSnoc(q.predicates, e.many(first), r);
      assert Holds(e.many(first), r) <==> e.row(r).Some? && e.row(r).value in first;
      assert Holds(e.one(k), r) <==> e.row(r) == Some(k);
      SelectHas(q.predicates + [e.many(first)], table, r);
    }
  }

  /** An account query that was run for `first` gives a key it was run for what it always gave, and others nothing. */
  lemma {:induction false} EdgeTwice(e: EdgeKey, q: AccountQuery, first: seq<Id>, k: Id, db: Database)
    requires ProperKey(e, q) && Plain(q) && NoWindow(q.limit, q.offset)
    ensures Simple(EdgeAfter(e, q, first, db), [e.one(k)], db) ==
            if k in first then Simple(q, [e.one(k)], db) else []
    decreases Depth(q), 2
  {
    var found := CutRows(e, q, first, db);
    var after, again := After(q, found, db), EdgeAfter(e, q, first, db);
    var own := QueryRows(again, [e.one(k)], db);
    AfterTop(q, found, db);
    SelectTwice(e, q, first, k, db.accounts(q.order));
    if k in first {
      assert own == QueryRows(q, [e.one(k)], db);
      OwnRowsWereFound(e, q, first, k, db);
      var a, b := NodesOf(again, own, db), NodesOf(q, own, db);
      forall i | 0 <= i < |own| ensures a[i] == b[i] {
        assert own[i] in own;
        FoundNode(q, found, own[i], db);
        SameNode(after, again, own[i], db);
      }
    }
  }

  /** A node that the first run found is loaded again as it was. */
  lemma {:induction false} FoundNode(q: AccountQuery, rows: seq<AccountRow>, r: AccountRow, db: Database)
    requires Plain(q) && r in rows
    ensures Node(After(q, rows, db), r, db) == Node(q, r, db)
    decreases Depth(q), 1
  {
    NodeAfter(q, rows, r, db);
    WasAsked(q, rows, r);
  }

  /******* One node after another *******/

  ghost predicate Lacks(first: seq<Id>, k: Option<Id>) {
    k.Some? && k.value !in first
  }

  /** Whatever edge of the account the first run did not ask for is empty anyway. */
  ghost predicate NothingMissed(q: AccountQuery, rows: seq<AccountRow>, r: AccountRow, db: Database) {
    rows == [] ||
    var nodes := FreshNodes(q, rows);
    var ids, proxies, parents := Ids(nodes), KeysOf(ProxyKey, nodes), KeysOf(ParentKey, nodes);
    && (q.withProxy.Some? && proxies != [] && Lacks(proxies, r.proxyID) ==>
          ProxyOf(q.withProxy.value, r.proxyID, db).None?)
    && (q.withParent.Some? && parents != [] && Lacks(parents, r.parentAccountID) ==>
          ParentOf(q.withParent.value, r.parentAccountID, db).None?)
    && (q.withChildren.Some? && r.id !in ids ==> ChildrenOf(q.withChildren.value, r.id, db) == [])
    && (q.withUsageLogs.Some? && r.id !in ids ==> UsageLogsOf(q.withUsageLogs.value, r.id, db) == [])
    && (q.withAccountGroups.Some? && r.id !in ids ==> LinksOf(q.withAccountGroups.value, r.id, db) == [])
  }

  lemma WasAsked(q: AccountQuery, rows: seq<AccountRow>, r: AccountRow)
    requires r in rows
    ensures var nodes := FreshNodes(q, rows);
            && r.id in Ids(nodes)
            && (q.withProxy.Some? ==> !Lacks(KeysOf(ProxyKey, nodes), r.proxyID))
            && (q.withParent.Some? ==> !Lacks(KeysOf(ParentKey, nodes), r.parentAccountID))
  {
    var nodes := FreshNodes(q, rows);
    var i :| 0 <= i < |rows| && rows[i] == r;
    assert Ids(nodes)[i] == r.id;
    KeysAreSelected(q);
    if q.withProxy.Some? && r.proxyID.Some? {
      KeyIsAsked(ProxyKey, nodes, i, r.proxyID.value);
    }
    if q.withParent.Some? && r.parentAccountID.Some? {
      KeyIsAsked(ParentKey, nodes, i, r.parentAccountID.value);
    }
  }

  lemma ProxyTwice(q: LeafQuery<ProxyRow>, first: seq<Id>, key: Option<Id>, db: Database)
    ensures ProxyOf(ProxyAfter(q, first), key, db) ==
            if first != [] && Lacks(first, key) then None else ProxyOf(q, key, db)
  {
    if key.Some? {
      LeafTwice(q, ProxyId, first, key.value, db.proxies(q.order));
    }
  }

  lemma {:induction false} ParentTwice(q: AccountQuery, first: seq<Id>, key: Option<Id>, db: Database)
    requires Plain(q) && NoWindow(q.limit, q.offset)
    ensures ParentOf(ParentAfter(q, first, db), key, db) ==
            if first != [] && Lacks(first, key) then None else ParentOf(q, key, db)
    decreases Depth(q), 3
  {
    if key.Some? && first != [] {
      var k: Id := key.value;
      ParentKeyed(q);
      EdgeTwice(PARENT, q, first, k, db);
      ParentAfterIsEdge(q, first, db);
      assert PARENT.one(k) == IDIn([key.value]);
    }
  }

  lemma {:induction false} ChildrenTwice(q: AccountQuery, first: seq<Id>, k: Id, db: Database)
    requires Plain(q) && NoWindow(q.limit, q.offset)
    ensures ChildrenOf(ChildrenAfter(q, first, db), k, db) == if k in first then ChildrenOf(q, k, db) else []
    decreases Depth(q), 3
  {
    var kq, again := Keyed(q), ChildrenAfter(q, first, db);
    KeysAreSelected(q);
    ChildrenKey(kq);
    PlainKeyed(q);
    EdgeTwice(CHILDREN, kq, first, k, db);
    ChildrenAfterIsEdge(q, first, db);
    AfterTop(kq, CutRows(CHILDREN, kq, first, db), db);
    assert Keyed(again) == again;
    assert CHILDREN.one(k) == ParentIn([k]);
  }

  /** The second load of a node is right exactly when it misses nothing. */
  lemma {:induction false} NodeAfter(q: AccountQuery, rows: seq<AccountRow>, r: AccountRow, db: Database)
    requires Plain(q)
    ensures Node(After(q, rows, db), r, db) == Node(q, r, db) <==> NothingMissed(q, rows, r, db)
    decreases Depth(q), 0
  {
    if rows != [] {
      var nodes := FreshNodes(q, rows);
      AfterTop(q, rows, db);
      AfterDecodes(q, rows, r, db);
      if q.withProxy.Some? { ProxyTwice(q.withProxy.value, KeysOf(ProxyKey, nodes), r.proxyID, db); }
      if q.withParent.Some? { ParentTwice(q.withParent.value, KeysOf(ParentKey, nodes), r.parentAccountID, db); }
      if q.withChildren.Some? { ChildrenTwice(q.withChildren.value, Ids(nodes), r.id, db); }
      if q.withUsageLogs.Some? {
        LeafTwice(q.withUsageLogs.value, UsageLogAccount, Ids(nodes), r.id, db.usageLogs(q.withUsageLogs.value.order));
      }
      if q.withAccountGroups.Some? {
        var e := q.withAccountGroups.value;
        LeafTwice(e, LinkAccount, Ids(nodes), r.id, db.accountGroups(e.order));
      }
    }
  }

  /******* The theorem *******/

  lemma PlainLoads(q: AccountQuery, rows: seq<AccountRow>, db: Database)
    requires ValidDatabase(db) && Plain(q)
    ensures Loaded(q, rows, db) == NodesOf(q, rows, db)
  {
    UnlimitedIsHarmless(q, rows, db);
    TreeIff(q, rows, db);
  }

  /**
   A second run of the same tree, for any rows: it returns what a fresh builder would return if and only if every edge
   that the first run did not ask for is empty anyway.  Deeper levels never add a condition, since what they are asked
   for the second time they were asked for before.
   */
  lemma SecondRunIff(q: AccountQuery, first: seq<AccountRow>, second: seq<AccountRow>, db: Database)
    requires ValidDatabase(db) && Plain(q)
    ensures Loaded(After(q, first, db), second, db) == Loaded(q, second, db) <==>
            forall i :: 0 <= i < |second| ==> NothingMissed(q, first, second[i], db)
  {
    AfterIsPlain(q, first, db);
    PlainLoads(After(q, first, db), second, db);
    PlainLoads(q, second, db);
    var a, b := NodesOf(After(q, first, db), second, db), NodesOf(q, second, db);
    forall i | 0 <= i < |second| ensures a[i] == b[i] <==> NothingMissed(q, first, second[i], db) {
      NodeAfter(q, first, second[i], db);
    }
    assert a == b <==> forall i :: 0 <= i < |second| ==> a[i] == b[i];
  }

  /** The builder run twice, with different predicates for its accounts: what the second run returns. */
  method RunTwice(db: Database, q: AccountQuery, one: seq<AccountPred>, two: seq<AccountPred>)
    returns (first: seq<Account>, second: seq<Account>)
    requires ValidDatabase(db) && Plain(q)
    ensures first == Simple(q, one, db)
    ensures second == Simple(q, two, db) <==>
            var before, now := QueryRows(q, one, db), QueryRows(q, two, db);
            forall i :: 0 <= i < |now| ==> NothingMissed(q, before, now[i], db)
  {
    var left, rest;
    first, left := SqlAll(db, q, one);
    second, rest := SqlAll(db, left, two);
    ghost var before, now := QueryRows(q, one, db), QueryRows(q, two, db);
    AfterRows(q, before, two, db);
    PlainLoads(q, before, db);
    PlainLoads(q, now, db);
    SecondRunIff(q, before, now, db);
  }

  /** A second run for accounts of the first one returns the right edges. */
  lemma SameAccountsAgain(q: AccountQuery, first: seq<AccountRow>, second: seq<AccountRow>, db: Database)
    requires ValidDatabase(db) && Plain(q) && forall r :: r in second ==> r in first
    ensures Loaded(After(q, first, db), second, db) == Loaded(q, second, db)
  {
    SecondRunIff(q, first, second, db);
    forall i | 0 <= i < |second| ensures NothingMissed(q, first, second[i], db) {
      assert second[i] in second;
      WasAsked(q, first, second[i]);
    }
  }

  /** The next page of the same builder: account 2 is loaded after account 1, and its child is missing. */
  lemma NextPageMissesAChild()
    ensures var q := NO_EDGES.(withChildren := Some(NO_EDGES));
            Loaded(After(q, [FAMILY[0]], FAMILY_DB), [FAMILY[1]], FAMILY_DB) != Loaded(q, [FAMILY[1]], FAMILY_DB)
  {
    var q := NO_EDGES.(withChildren := Some(NO_EDGES));
    var first, second := [FAMILY[0]], [FAMILY[1]];
    SecondHasAChild();
    assert Ids(FreshNodes(q, first)) == [1] && second[0].id == 2;
    assert !NothingMissed(q, first, second[0], FAMILY_DB);
    FamilyIsValid();
    SecondRunIff(q, first, second, FAMILY_DB);
  }

  lemma SecondHasAChild()
    ensures ChildrenOf(NO_EDGES, 2, FAMILY_DB) != []
  {
    SecondAccount(NO_EDGES);
    assert |Window(None, 0, [FAMILY[3]])| == 1;
  }
}
