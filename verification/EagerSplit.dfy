/** A batch of rows splits into the rows of the single queries it stands for. */
module EagerSplit {
  import opened Prelude
  import opened EagerModel
  import opened EagerLoad

  /******* Keys *******/

  /** The key column is always among the fetched ones when an edge needs it. */
  lemma KeysAreSelected(q: AccountQuery)
    ensures q.withProxy.Some? ==> Selects(q, ColProxyID)
    ensures q.withParent.Some? ==> Selects(q, ColParentAccountID)
    ensures Selects(Keyed(q), ColParentAccountID)
  {
    if q.fields != [] {
      OtherThanIDMeaning(Keyed(q).fields);
    }
  }

  lemma {:induction false} OtherThanIDMeaning(fields: seq<Column>)
    ensures forall c :: c in OtherThanID(fields) <==> c in fields && c != ColID
  {
    if fields != [] {
      OtherThanIDMeaning(Init(fields));
      assert forall c :: c in fields <==> c in Init(fields) || c == Last(fields);
    }
  }

  lemma SatisfiesSnoc(ps: seq<AccountPred>, p: AccountPred, r: AccountRow)
    ensures Satisfies(ps + [p], r) <==> Satisfies(ps, r) && Holds(p, r)
  {
    if Satisfies(ps + [p], r) {
      assert forall i :: 0 <= i < |ps| ==> ps[i] == (ps + [p])[i];
      assert (ps + [p])[|ps|] == p;
    }
  }

  /** Picking one key out of a batch of account rows is asking for that key alone. */
  lemma {:induction false} SplitSelect(ps: seq<AccountPred>, many: AccountPred, one: AccountPred,
                                       key: AccountRow -> Option<Id>, k: Id, table: seq<AccountRow>)
    requires forall r :: r in table ==> (Holds(many, r) && key(r) == Some(k) <==> Holds(one, r))
    ensures WithKey(key, k, Select(ps + [many], table)) == Select(ps + [one], table)
  {
    if table != [] {
      var r := Last(table);
      SplitSelect(ps, many, one, key, k, Init(table));
      SatisfiesSnoc(ps, many, r);
      SatisfiesSnoc(ps, one, r);
      var rest := Select(ps + [many], Init(table));
      assert Init(rest + [r]) == rest;
    }
  }

  lemma {:induction false} SplitBatch<R(!new)>(keep: R -> bool, key: R -> Option<Id>, ids: seq<Id>, k: Id,
                                               table: seq<R>)
    requires k in ids
    ensures WithKey(key, k, Batch(keep, key, ids, table)) == Batch(keep, key, [k], table)
  {
    if table != [] {
      SplitBatch(keep, key, ids, k, Init(table));
      var rest := Batch(keep, key, ids, Init(table));
      assert Init(rest + [Last(table)]) == rest;
    }
  }

  lemma {:induction false} BatchMeaning<R(!new)>(keep: R -> bool, key: R -> Option<Id>, ids: seq<Id>, table: seq<R>)
    ensures forall r :: r in Batch(keep, key, ids, table) ==>
              r in table && keep(r) && key(r).Some? && key(r).value in ids
  {
    if table != [] {
      BatchMeaning(keep, key, ids, Init(table));
    }
  }

  lemma {:induction false} SelectMeaning(ps: seq<AccountPred>, table: seq<AccountRow>)
    ensures forall r :: r in Select(ps, table) ==> r in table && Satisfies(ps, r)
    ensures |Select(ps, table)| <= |table|
  {
    if table != [] {
      SelectMeaning(ps, Init(table));
    }
  }

  /** The elements of `s` stand in the order in which `t` lists them. */
  ghost predicate InOrder<T>(s: seq<T>, t: seq<T>) {
    forall i, j, x, y :: 0 <= i < j < |s| && 0 <= x < |t| && 0 <= y < |t| && t[x] == s[i] && t[y] == s[j] ==> x < y
  }

  lemma InOrderLonger<T>(s: seq<T>, t: seq<T>, e: T)
    requires InOrder(s, t) && forall i :: 0 <= i < |s| ==> s[i] != e
    ensures InOrder(s, t + [e])
  {
  }

  lemma InOrderSnoc<T>(s: seq<T>, t: seq<T>)
    requires t != [] && NoDuplicates(t) && InOrder(s, t) && forall i :: 0 <= i < |s| ==> s[i] != Last(t)
    ensures InOrder(s + [Last(t)], t)
  {
  }

  /** A batch keeps apart what a key of the table keeps apart. */
  lemma {:induction false} BatchKeepsDistinct<R(!new), K(!new)>(keep: R -> bool, key: R -> Option<Id>, ids: seq<Id>,
                                                               table: seq<R>, id: R -> K)
    requires DistinctBy(id, table)
    ensures DistinctBy(id, Batch(keep, key, ids, table))
  {
    if table != [] {
      BatchKeepsDistinct(keep, key, ids, Init(table), id);
      BatchMeaning(keep, key, ids, Init(table));
      var b := Batch(keep, key, ids, Init(table));
      forall i | 0 <= i < |b| ensures id(b[i]) != id(Last(table)) {
        assert b[i] in b;
        var j :| 0 <= j < |Init(table)| && Init(table)[j] == b[i];
        assert table[j] == b[i];
      }
      DistinctSnoc(id, b, Last(table));
    }
  }

  lemma DistinctSnoc<R, K>(id: R -> K, s: seq<R>, r: R)
    requires DistinctBy(id, s) && forall i :: 0 <= i < |s| ==> id(s[i]) != id(r)
    ensures DistinctBy(id, s + [r])
  {
  }

  lemma WindowKeepsDistinct<R, K>(id: R -> K, limit: Option<nat>, offset: nat, s: seq<R>)
    requires DistinctBy(id, s)
    ensures DistinctBy(id, Window(limit, offset, s))
  {
  }

  /** Distinct keys: each of them is carried at most once. */
  lemma {:induction false} AtMostOneWithKey<E(!new)>(key: E -> Option<Id>, k: Id, s: seq<E>)
    requires DistinctBy(key, s)
    ensures |WithKey(key, k, s)| <= 1
  {
    if s != [] {
      AtMostOneWithKey(key, k, Init(s));
      WithKeyMeaning(key, k, Init(s));
      var rest := WithKey(key, k, Init(s));
      if |rest| == 1 {
        assert rest[0] in rest;
        var j :| 0 <= j < |Init(s)| && Init(s)[j] == rest[0];
        assert key(s[j]) == Some(k);
      }
    }
  }

  lemma {:induction false} WithKeyMeaning<E(!new)>(key: E -> Option<Id>, k: Id, s: seq<E>)
    ensures forall e :: e in WithKey(key, k, s) <==> e in s && key(e) == Some(k)
  {
    if s != [] {
      WithKeyMeaning(key, k, Init(s));
      assert s == Init(s) + [Last(s)];
    }
  }

  ghost predicate DistinctRows(rows: seq<AccountRow>) {
    forall i, j :: 0 <= i < j < |rows| ==> rows[i].id != rows[j].id
  }

  /** The identifiers of a query's nodes are distinct. */
  lemma {:induction false} DistinctNodes(ps: seq<AccountPred>, table: seq<AccountRow>)
    requires DistinctRows(table)
    ensures DistinctRows(Select(ps, table))
  {
    if table != [] {
      DistinctNodes(ps, Init(table));
      SelectMeaning(ps, Init(table));
      var s := Select(ps, Init(table));
      assert forall i :: 0 <= i < |s| ==> s[i] in s;
    }
  }

  /******* The join splits into the single joins *******/

  lemma {:induction false} LinkRowsMeaning(g: GroupRow, links: seq<AccountGroupRow>, ids: seq<Id>)
    ensures forall r :: r in LinkRows(g, links, ids) <==>
              r.group == g && r.accountID in ids && Linked(links, r.accountID, g.id)
  {
    if links != [] {
      LinkRowsMeaning(g, Init(links), ids);
      assert forall l :: l in links <==> l in Init(links) || l == Last(links);
      forall a ensures Linked(links, a, g.id) <==>
                Linked(Init(links), a, g.id) || (Last(links).accountID == a && Last(links).groupID == g.id) {
      }
    }
  }

  lemma {:induction false} JoinMeaning(keep: GroupRow -> bool, table: seq<GroupRow>, links: seq<AccountGroupRow>,
                                       ids: seq<Id>)
    ensures forall r :: r in JoinRows(keep, table, links, ids) <==>
              r.group in table && keep(r.group) && r.accountID in ids && Linked(links, r.accountID, r.group.id)
  {
    if table != [] {
      JoinMeaning(keep, Init(table), links, ids);
      LinkRowsMeaning(Last(table), links, ids);
      assert forall g :: g in table <==> g in Init(table) || g == Last(table);
    }
  }

  /** The groups of the table that some loaded account is linked to. */
  ghost function Touched(keep: GroupRow -> bool, table: seq<GroupRow>, links: seq<AccountGroupRow>, ids: seq<Id>)
    : seq<GroupRow>
  {
    if table == [] then []
    else
      var rest := Touched(keep, Init(table), links, ids);
      if keep(Last(table)) && LinkRows(Last(table), links, ids) != [] then rest + [Last(table)] else rest
  }

  lemma {:induction false} FirstGroupsOfOne(rows: seq<JoinRow>, g: GroupRow, links: seq<AccountGroupRow>, ids: seq<Id>)
    requires !HasGroup(rows, g.id)
    ensures FirstGroups(rows + LinkRows(g, links, ids)) ==
            if LinkRows(g, links, ids) == [] then FirstGroups(rows) else FirstGroups(rows) + [g]
  {
    var all := LinkRows(g, links, ids);
    if links == [] {
      assert rows + all == rows;
    } else {
      FirstGroupsOfOne(rows, g, Init(links), ids);
      var rest := LinkRows(g, Init(links), ids);
      LinkRowsMeaning(g, Init(links), ids);
      if all != rest {
        assert rows + all == (rows + rest) + [Last(all)];
        assert Init(rows + all) == rows + rest;
        if rest == [] {
          assert rows + rest == rows;
        } else {
          assert rest[0] in rows + rest;
          assert HasGroup(rows + rest, g.id);
        }
      }
    }
  }

  lemma {:induction false} FirstGroupsOfJoin(keep: GroupRow -> bool, table: seq<GroupRow>,
                                             links: seq<AccountGroupRow>, ids: seq<Id>)
    requires forall i, j :: 0 <= i < j < |table| ==> table[i].id != table[j].id
    ensures FirstGroups(JoinRows(keep, table, links, ids)) == Touched(keep, table, links, ids)
  {
    if table != [] {
      FirstGroupsOfJoin(keep, Init(table), links, ids);
      if keep(Last(table)) {
        JoinMeaning(keep, Init(table), links, ids);
        FirstGroupsOfOne(JoinRows(keep, Init(table), links, ids), Last(table), links, ids);
      }
    }
  }

  lemma {:induction false} LinkedInTouched(keep: GroupRow -> bool, table: seq<GroupRow>, links: seq<AccountGroupRow>,
                                           ids: seq<Id>, rows: seq<JoinRow>, account: Id)
    requires account in ids
    requires forall g :: g in table && keep(g) ==> (HasRow(rows, account, g.id) <==> Linked(links, account, g.id))
    ensures LinkedIn(Touched(keep, table, links, ids), rows, account) == LinkedGroups(keep, table, links, account)
  {
    if table != [] {
      LinkedInTouched(keep, Init(table), links, ids, rows, account);
      var g := Last(table);
      var rest := Touched(keep, Init(table), links, ids);
      assert Init(rest + [g]) == rest;
      LinkRowsMeaning(g, links, ids);
      if Linked(links, account, g.id) {
        assert JoinRow(account, g) in LinkRows(g, links, ids);
      }
    }
  }

  /** What the join gives to one account is what a join for that account alone gives it. */
  lemma SplitJoin(q: LeafQuery<GroupRow>, db: Database, ids: seq<Id>, account: Id)
    requires ValidDatabase(db) && account in ids
    ensures var rows := GroupJoin(q, db, ids);
            LinkedIn(FirstGroups(rows), rows, account) ==
            LinkedGroups(q.keep, db.groups(q.order), db.accountGroups(0), account)
  {
    var table, links, rows := db.groups(q.order), db.accountGroups(0), GroupJoin(q, db, ids);
    FirstGroupsOfJoin(q.keep, table, links, ids);
    JoinMeaning(q.keep, table, links, ids);
    forall g | g in table && q.keep(g)
      ensures HasRow(rows, account, g.id) <==> Linked(links, account, g.id)
    {
      if Linked(links, account, g.id) {
        assert JoinRow(account, g) in rows;
      }
      if HasRow(rows, account, g.id) {
        var r :| r in rows && r.accountID == account && r.group.id == g.id;
      }
    }
    LinkedInTouched(q.keep, table, links, ids, rows, account);
  }
}
