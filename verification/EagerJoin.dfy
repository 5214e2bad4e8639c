/** The many-to-many join: one row per link, the rows of a group together, so an account's rows are its groups. */
module EagerJoin {
  import opened Prelude
  import opened EagerModel
  import opened EagerLoad
  import opened EagerSplit
  import opened EagerBatch
  import opened EagerWindow

  function LinkOf(j: JoinRow): (Id, Id) { (j.accountID, j.group.id) }

  /** Rows of one group stand together and carry the same group. */
  ghost predicate Grouped(rows: seq<JoinRow>) {
    forall i, j, m :: 0 <= i <= j <= m < |rows| && rows[i].group.id == rows[m].group.id ==>
      rows[j].group == rows[i].group
  }

  /** No link twice, and the rows of a group together. */
  ghost predicate Tidy(rows: seq<JoinRow>) {
    DistinctBy(LinkOf, rows) && Grouped(rows)
  }

  lemma {:induction false} LinkRowsTidy(g: GroupRow, links: seq<AccountGroupRow>, ids: seq<Id>)
    requires DistinctLinks(links)
    ensures DistinctBy(LinkOf, LinkRows(g, links, ids))
  {
    if links != [] {
      LinkRowsTidy(g, Init(links), ids);
      LinkRowsMeaning(g, Init(links), ids);
      var rest, l := LinkRows(g, Init(links), ids), Last(links);
      if l.groupID == g.id && l.accountID in ids {
        var r := JoinRow(l.accountID, g);
        forall i | 0 <= i < |rest| ensures LinkOf(rest[i]) != LinkOf(r) {
          assert rest[i] in rest;
          assert Linked(Init(links), rest[i].accountID, g.id);
          var l' :| l' in Init(links) && l'.accountID == rest[i].accountID && l'.groupID == g.id;
          var j :| 0 <= j < |Init(links)| && Init(links)[j] == l';
          assert links[j] == l';
        }
        DistinctSnoc(LinkOf, rest, r);
      }
    }
  }

  /** A tidy list followed by the rows of a new group. */
  lemma TidyConcat(a: seq<JoinRow>, b: seq<JoinRow>, g: GroupRow)
    requires Tidy(a) && DistinctBy(LinkOf, b) && !HasGroup(a, g.id)
    requires forall i :: 0 <= i < |b| ==> b[i].group == g
    ensures Tidy(a + b)
  {
    assert forall i :: 0 <= i < |a| ==> a[i] in a && a[i].group.id != g.id;
    var s := a + b;
    forall i, j | 0 <= i < j < |s| ensures LinkOf(s[i]) != LinkOf(s[j]) {
      assert i >= |a| ==> s[i] == b[i - |a|];
      assert j >= |a| ==> s[j] == b[j - |a|];
    }
  }

  lemma {:induction false} JoinIsTidy(keep: GroupRow -> bool, table: seq<GroupRow>, links: seq<AccountGroupRow>,
                                      ids: seq<Id>)
    requires DistinctLinks(links) && forall i, j :: 0 <= i < j < |table| ==> table[i].id != table[j].id
    ensures Tidy(JoinRows(keep, table, links, ids))
  {
    if table != [] {
      JoinIsTidy(keep, Init(table), links, ids);
      if keep(Last(table)) {
        var g := Last(table);
        JoinMeaning(keep, Init(table), links, ids);
        LinkRowsMeaning(g, links, ids);
        LinkRowsTidy(g, links, ids);
        var b := LinkRows(g, links, ids);
        assert forall i :: 0 <= i < |b| ==> b[i] in b;
        TidyConcat(JoinRows(keep, Init(table), links, ids), b, g);
      }
    }
  }

  lemma TidyInit(rows: seq<JoinRow>)
    requires Tidy(rows) && rows != []
    ensures Tidy(Init(rows))
  {
  }

  lemma WindowIsTidy(limit: Option<nat>, offset: nat, rows: seq<JoinRow>)
    requires Tidy(rows)
    ensures Tidy(Window(limit, offset, rows))
  {
    WindowKeepsDistinct(LinkOf, limit, offset, rows);
  }

  /******* An account's rows and its groups *******/

  ghost function GroupsIn(rows: seq<JoinRow>): seq<GroupRow> {
    seq(|rows|, i requires 0 <= i < |rows| => rows[i].group)
  }

  /** The last group to be decoded is the group of the last row. */
  lemma {:induction false} LastDecoded(rows: seq<JoinRow>)
    requires Tidy(rows) && rows != []
    ensures FirstGroups(rows) != [] && Last(FirstGroups(rows)) == Last(rows).group
  {
    var init := Init(rows);
    if HasGroup(init, Last(rows).group.id) {
      SameGroupBefore(rows);
      TidyInit(rows);
      LastDecoded(init);
    }
  }

  /** A group that was seen before was seen in the row just before. */
  lemma SameGroupBefore(rows: seq<JoinRow>)
    requires Tidy(rows) && rows != [] && HasGroup(Init(rows), Last(rows).group.id)
    ensures Init(rows) != [] && Last(Init(rows)).group == Last(rows).group
  {
    var init, m := Init(rows), |rows| - 1;
    var r :| r in init && r.group.id == Last(rows).group.id;
    var i :| 0 <= i < |init| && init[i] == r;
    assert rows[i] == r && rows[m] == Last(rows);
    assert rows[m - 1].group == rows[i].group && rows[m].group == rows[i].group;
  }

  lemma {:induction false} LinkedInSame(gs: seq<GroupRow>, a: seq<JoinRow>, b: seq<JoinRow>, account: Id)
    requires forall i :: 0 <= i < |gs| ==> (HasRow(a, account, gs[i].id) <==> HasRow(b, account, gs[i].id))
    ensures LinkedIn(gs, a, account) == LinkedIn(gs, b, account)
  {
    if gs != [] {
      assert forall i :: 0 <= i < |Init(gs)| ==> Init(gs)[i] == gs[i];
      assert Last(gs) == gs[|gs| - 1];
      LinkedInSame(Init(gs), a, b, account);
    }
  }

  lemma HasRowSnoc(rows: seq<JoinRow>, account: Id, g: Id)
    requires rows != []
    ensures HasRow(rows, account, g) <==>
            HasRow(Init(rows), account, g) || (Last(rows).accountID == account && Last(rows).group.id == g)
  {
    assert rows == Init(rows) + [Last(rows)];
  }

  /** The link of the last row does not occur before. */
  lemma LastLinkIsNew(rows: seq<JoinRow>)
    requires Tidy(rows) && rows != []
    ensures !HasRow(Init(rows), Last(rows).accountID, Last(rows).group.id)
  {
    forall r | r in Init(rows) ensures !(r.accountID == Last(rows).accountID && r.group.id == Last(rows).group.id) {
      var i :| 0 <= i < |Init(rows)| && Init(rows)[i] == r;
      assert rows[i] == r && LinkOf(rows[i]) != LinkOf(rows[|rows| - 1]);
    }
  }

  lemma GroupsInSnoc(rows: seq<JoinRow>, account: Id)
    requires rows != []
    ensures GroupsIn(WithKey(JoinAccount, account, rows)) ==
            if Last(rows).accountID == account
            then GroupsIn(WithKey(JoinAccount, account, Init(rows))) + [Last(rows).group]
            else GroupsIn(WithKey(JoinAccount, account, Init(rows)))
  {
  }

  /** The groups of the decoded list other than the last row's keep their links. */
  lemma OthersKeepLinks(gs: seq<GroupRow>, rows: seq<JoinRow>, account: Id)
    requires rows != [] && forall i :: 0 <= i < |gs| ==> gs[i].id != Last(rows).group.id
    ensures LinkedIn(gs, rows, account) == LinkedIn(gs, Init(rows), account)
  {
    forall i | 0 <= i < |gs| ensures HasRow(rows, account, gs[i].id) <==> HasRow(Init(rows), account, gs[i].id) {
      HasRowSnoc(rows, account, gs[i].id);
    }
    LinkedInSame(gs, rows, Init(rows), account);
  }

  /** The last row belongs to a group that was decoded before, and adds to the account's list if it is the account's. */
  lemma SeenGroupLinked(rows: seq<JoinRow>, account: Id)
    requires Tidy(rows) && rows != [] && HasGroup(Init(rows), Last(rows).group.id)
    ensures LinkedIn(FirstGroups(rows), rows, account) ==
            if Last(rows).accountID == account
            then LinkedIn(FirstGroups(Init(rows)), Init(rows), account) + [Last(rows).group]
            else LinkedIn(FirstGroups(Init(rows)), Init(rows), account)
  {
    var init, r := Init(rows), Last(rows);
    var before := FirstGroups(init);
    TidyInit(rows);
    SameGroupBefore(rows);
    LastDecoded(init);
    FirstGroupsMeaning(init);
    assert before == Init(before) + [r.group];
    OthersKeepLinks(Init(before), rows, account);
    LastLinkIsNew(rows);
    HasRowSnoc(rows, account, r.group.id);
  }

  lemma NewGroupLinked(rows: seq<JoinRow>, account: Id)
    requires Tidy(rows) && rows != [] && !HasGroup(Init(rows), Last(rows).group.id)
    ensures LinkedIn(FirstGroups(rows), rows, account) ==
            if Last(rows).accountID == account
            then LinkedIn(FirstGroups(Init(rows)), Init(rows), account) + [Last(rows).group]
            else LinkedIn(FirstGroups(Init(rows)), Init(rows), account)
  {
    var init, r := Init(rows), Last(rows);
    var before := FirstGroups(init);
    FirstGroupsMeaning(init);
    assert forall i :: 0 <= i < |before| ==> before[i] in before;
    NoRowWithoutGroup(init, account, r.group.id);
    HasRowSnoc(rows, account, r.group.id);
    OthersKeepLinks(before, rows, account);
    assert Init(before + [r.group]) == before;
  }

  /** On tidy rows the fan-out hands an account the groups of its own rows, in their order. */
  lemma {:induction false} TidyLinked(rows: seq<JoinRow>, account: Id)
    requires Tidy(rows)
    ensures LinkedIn(FirstGroups(rows), rows, account) == GroupsIn(WithKey(JoinAccount, account, rows))
  {
    if rows != [] {
      TidyInit(rows);
      TidyLinked(Init(rows), account);
      GroupsInSnoc(rows, account);
      if HasGroup(Init(rows), Last(rows).group.id) {
        SeenGroupLinked(rows, account);
      } else {
        NewGroupLinked(rows, account);
      }
    }
  }

  /******* Any join order *******/

  lemma {:induction false} LinkedInOrder(gs: seq<GroupRow>, rows: seq<JoinRow>, account: Id)
    requires NoDuplicates(gs)
    ensures InOrder(LinkedIn(gs, rows, account), gs) && NoDuplicates(LinkedIn(gs, rows, account))
  {
    if gs != [] {
      var init, last := Init(gs), Last(gs);
      LinkedInOrder(init, rows, account);
      LinkedInMembers(init, rows, account);
      var s := LinkedIn(init, rows, account);
      forall i | 0 <= i < |s| ensures s[i] in init && s[i] != last {
        assert s[i] in s;
      }
      InOrderLonger(s, init, last);
      if HasRow(rows, account, last.id) {
        InOrderSnoc(s, gs);
      }
    }
  }

  /** In an ordered list the last group can only be last. */
  lemma LastIsLast(s: seq<GroupRow>, gs: seq<GroupRow>)
    requires gs != [] && NoDuplicates(s) && InOrder(s, gs) && (forall g :: g in s ==> g in gs) && Last(gs) in s
    ensures s != [] && Last(s) == Last(gs)
  {
    var i :| 0 <= i < |s| && s[i] == Last(gs);
    var j := |s| - 1;
    assert s[j] in s;
    var y :| 0 <= y < |gs| && gs[y] == s[j];
    assert gs[|gs| - 1] == s[i];
  }

  /** A list without its last group, if it has it. */
  ghost function Without(s: seq<GroupRow>, g: GroupRow): seq<GroupRow> {
    if g in s then Init(s) else s
  }

  lemma WithoutLast(s: seq<GroupRow>, gs: seq<GroupRow>)
    requires gs != [] && NoDuplicates(s) && InOrder(s, gs) && (forall g :: g in s ==> g in gs)
    ensures forall g :: g in Without(s, Last(gs)) <==> g in s && g != Last(gs)
    ensures Last(gs) in s ==> s == Without(s, Last(gs)) + [Last(gs)]
  {
    if Last(gs) in s {
      LastIsLast(s, gs);
      assert s == Init(s) + [Last(s)];
      forall g | g in Init(s) ensures g != Last(gs) {
        var i :| 0 <= i < |Init(s)| && Init(s)[i] == g;
        assert s[i] == g && s[|s| - 1] == Last(gs);
      }
    }
  }

  lemma InOrderWithout(s: seq<GroupRow>, gs: seq<GroupRow>)
    requires gs != [] && NoDuplicates(s) && InOrder(s, gs)
    ensures NoDuplicates(Without(s, Last(gs))) && InOrder(Without(s, Last(gs)), Init(gs))
  {
  }

  lemma NoMembers<T>(s: seq<T>)
    requires forall x :: x !in s
    ensures s == []
  {
    assert |multiset(s)| == |s|;
    assert forall x :: x in multiset(s) ==> x in s;
    assert multiset(s) == multiset{};
  }

  /** The order of `gs` leaves one way to list a set of groups. */
  lemma {:induction false} OneOrder(a: seq<GroupRow>, b: seq<GroupRow>, gs: seq<GroupRow>)
    requires NoDuplicates(a) && NoDuplicates(b) && InOrder(a, gs) && InOrder(b, gs)
    requires (forall g :: g in a <==> g in b) && (forall g :: g in a ==> g in gs)
    ensures a == b
    decreases |gs|
  {
    if gs == [] {
      NoMembers(a);
      NoMembers(b);
    } else {
      var g, rest := Last(gs), Init(gs);
      assert gs == rest + [g];
      var a', b' := Without(a, g), Without(b, g);
      WithoutLast(a, gs);
      WithoutLast(b, gs);
      InOrderWithout(a, gs);
      InOrderWithout(b, gs);
      OneOrder(a', b', rest);
    }
  }

  /** No link twice, and one group per identifier. */
  ghost predicate ProperJoin(rows: seq<JoinRow>) {
    && DistinctBy(LinkOf, rows)
    && forall r, s :: r in rows && s in rows && r.group.id == s.group.id ==> r.group == s.group
  }

  lemma {:induction false} FirstGroupsAreGroups(rows: seq<JoinRow>)
    requires ProperJoin(rows)
    ensures forall g :: g in FirstGroups(rows) <==> exists r :: r in rows && r.group == g
    ensures NoDuplicates(FirstGroups(rows))
  {
    FirstGroupsMeaning(rows);
    FirstGroupsFromRows(rows);
    forall r | r in rows ensures r.group in FirstGroups(rows) {
      assert HasGroup(rows, r.group.id);
      var g :| g in FirstGroups(rows) && g.id == r.group.id;
      var s :| s in rows && s.group == g;
    }
  }

  lemma {:induction false} FirstGroupsFromRows(rows: seq<JoinRow>)
    ensures forall g :: g in FirstGroups(rows) ==> exists r :: r in rows && r.group == g
  {
    if rows != [] {
      FirstGroupsFromRows(Init(rows));
      assert rows == Init(rows) + [Last(rows)];
      forall g | g in FirstGroups(rows) ensures exists r :: r in rows && r.group == g {
        if g in FirstGroups(Init(rows)) {
          var r :| r in Init(rows) && r.group == g;
          assert r in rows;
        } else {
          assert Last(rows) in rows;
        }
      }
    }
  }

  /** The groups of an account's own rows are the groups it is handed, in the order of the rows. */
  lemma OwnGroups(rows: seq<JoinRow>, account: Id)
    requires ProperJoin(rows)
    ensures var own := GroupsIn(WithKey(JoinAccount, account, rows));
            NoDuplicates(own) && forall g :: g in own <==> g in LinkedIn(FirstGroups(rows), rows, account)
  {
    var mine, gs := WithKey(JoinAccount, account, rows), FirstGroups(rows);
    var own := GroupsIn(mine);
    WithKeyMeaning(JoinAccount, account, rows);
    FirstGroupsAreGroups(rows);
    LinkedInMembers(gs, rows, account);
    assert NoDuplicates(rows) by {
      assert forall i, j :: 0 <= i < j < |rows| ==> LinkOf(rows[i]) != LinkOf(rows[j]);
    }
    WithKeyDistinct(JoinAccount, account, rows);
    forall i, j | 0 <= i < j < |mine| ensures own[i] != own[j] {
      assert mine[i] in mine && mine[j] in mine;
    }
    forall g ensures g in own <==> g in LinkedIn(gs, rows, account) {
      if g in own {
        var i :| 0 <= i < |own| && own[i] == g;
        assert mine[i] in mine && mine[i] in rows && HasRow(rows, account, g.id);
      }
      if g in LinkedIn(gs, rows, account) {
        var r :| r in rows && r.accountID == account && r.group.id == g.id;
        var s :| s in rows && s.group == g;
        assert r in mine;
        var i :| 0 <= i < |mine| && mine[i] == r;
        assert own[i] == g;
      }
    }
  }

  /**
   Whatever the order of the join: an account is handed the groups of its own rows in their order if and only if those
   rows are in the order in which the groups first appear in the whole join.
   */
  lemma FanOutOrderIff(rows: seq<JoinRow>, account: Id)
    requires ProperJoin(rows)
    ensures var own := GroupsIn(WithKey(JoinAccount, account, rows));
            LinkedIn(FirstGroups(rows), rows, account) == own <==> InOrder(own, FirstGroups(rows))
  {
    var own, gs := GroupsIn(WithKey(JoinAccount, account, rows)), FirstGroups(rows);
    FirstGroupsAreGroups(rows);
    LinkedInOrder(gs, rows, account);
    OwnGroups(rows, account);
    if InOrder(own, gs) {
      LinkedInMembers(gs, rows, account);
      OneOrder(own, LinkedIn(gs, rows, account), gs);
    }
  }

  lemma NoRowWithoutGroup(rows: seq<JoinRow>, account: Id, g: Id)
    requires !HasGroup(rows, g)
    ensures !HasRow(rows, account, g)
  {
  }

  lemma GroupsInWindow(limit: Option<nat>, offset: nat, rows: seq<JoinRow>)
    ensures Window(limit, offset, GroupsIn(rows)) == GroupsIn(Window(limit, offset, rows))
  {
  }

  /** Rows of one account are told apart by their groups. */
  lemma GroupsInInjective(a: seq<JoinRow>, b: seq<JoinRow>, account: Id)
    requires forall r :: r in a || r in b ==> r.accountID == account
    ensures GroupsIn(a) == GroupsIn(b) <==> a == b
  {
    if GroupsIn(a) == GroupsIn(b) {
      assert |a| == |GroupsIn(a)| == |b|;
      forall i | 0 <= i < |a| ensures a[i] == b[i] {
        assert a[i] in a && b[i] in b && GroupsIn(a)[i] == GroupsIn(b)[i];
      }
    }
  }

  ghost predicate GroupsAgree(q: LeafQuery<GroupRow>, ids: seq<Id>, db: Database) {
    forall k :: k in ids ==> HandedGroups(q, ids, k, db) == GroupsOf(q, k, db)
  }

  lemma GroupsAgreeAt(q: LeafQuery<GroupRow>, ids: seq<Id>, db: Database, k: Id)
    requires ValidDatabase(db) && k in ids
    ensures HandedGroups(q, ids, k, db) == GroupsOf(q, k, db) <==>
            Agrees(q.limit, q.offset, JoinAccount, GroupJoin(q, db, ids), k)
  {
    var rows := GroupJoin(q, db, ids);
    JoinIsTidy(q.keep, db.groups(q.order), db.accountGroups(0), ids);
    var window := Window(q.limit, q.offset, rows);
    WindowIsTidy(q.limit, q.offset, rows);
    TidyLinked(window, k);
    TidyLinked(rows, k);
    SplitJoin(q, db, ids, k);
    var mine := WithKey(JoinAccount, k, rows);
    GroupsInWindow(q.limit, q.offset, mine);
    WithKeyMeaning(JoinAccount, k, rows);
    WithKeyMeaning(JoinAccount, k, window);
    WindowMembers(q.limit, q.offset, mine);
    GroupsInInjective(WithKey(JoinAccount, k, window), Window(q.limit, q.offset, mine), k);
  }

  /** Every account gets the groups its own query would give it if and only if the window on the join is harmless. */
  lemma GroupsIff(q: LeafQuery<GroupRow>, ids: seq<Id>, db: Database)
    requires ValidDatabase(db)
    ensures GroupsAgree(q, ids, db) <==> Harmless(q.limit, q.offset, JoinAccount, GroupJoin(q, db, ids))
  {
    var rows := GroupJoin(q, db, ids);
    JoinIsTidy(q.keep, db.groups(q.order), db.accountGroups(0), ids);
    JoinMeaning(q.keep, db.groups(q.order), db.accountGroups(0), ids);
    assert forall i, j :: 0 <= i < j < |rows| ==> LinkOf(rows[i]) != LinkOf(rows[j]);
    WindowIff(q.limit, q.offset, JoinAccount, rows);
    forall k | k in ids
      ensures HandedGroups(q, ids, k, db) == GroupsOf(q, k, db) <==> Agrees(q.limit, q.offset, JoinAccount, rows, k)
    {
      GroupsAgreeAt(q, ids, db, k);
    }
    forall k | k !in ids ensures Agrees(q.limit, q.offset, JoinAccount, rows, k) {
      AbsentKeyAgrees(q.limit, q.offset, JoinAccount, rows, k);
    }
  }

  /** A key that no row carries gets nothing either way. */
  lemma AbsentKeyAgrees<E(!new)>(limit: Option<nat>, offset: nat, fk: E -> Option<Id>, rows: seq<E>, k: Id)
    requires forall r :: r in rows ==> fk(r) != Some(k)
    ensures Agrees(limit, offset, fk, rows, k)
  {
    WindowMembers(limit, offset, rows);
    WithKeyNone(fk, k, rows);
    var window := Window(limit, offset, rows);
    forall i | 0 <= i < |window| ensures fk(window[i]) != Some(k) {
      assert window[i] in window;
    }
    WithKeyNone(fk, k, window);
  }
}
