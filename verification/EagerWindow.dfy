/**
 A Limit or an Offset on an edge query cuts the one result for all nodes, not the result of each node.  Exactly when
 does every node still get what its own query would give it?
 */
module EagerWindow {
  import opened Prelude
  import opened EagerModel
  import opened EagerSplit

  ghost predicate OneKey<E>(fk: E -> Option<Id>, rows: seq<E>) {
    forall i, j :: 0 <= i < |rows| && 0 <= j < |rows| ==> fk(rows[i]) == fk(rows[j])
  }

  /** The window on the whole batch leaves to key `k` what the window on its own rows would leave. */
  ghost predicate Agrees<E>(limit: Option<nat>, offset: nat, fk: E -> Option<Id>, rows: seq<E>, k: Id) {
    WithKey(fk, k, Window(limit, offset, rows)) == Window(limit, offset, WithKey(fk, k, rows))
  }

  /**
   Nothing is cut, or everything is, or the window and all rows before it belong to one key and no other key has more
   rows than are skipped.
   */
  ghost predicate Harmless<E(!new)>(limit: Option<nat>, offset: nat, fk: E -> Option<Id>, rows: seq<E>) {
    var e := End(limit, offset, |rows|);
    || (offset == 0 && e == |rows|)
    || |rows| <= offset
    || (OneKey(fk, rows[..e]) && forall k :: Some(k) != fk(rows[0]) ==> |WithKey(fk, k, rows)| <= offset)
  }

  ghost predicate AllKeyed<E>(fk: E -> Option<Id>, rows: seq<E>) {
    forall i :: 0 <= i < |rows| ==> fk(rows[i]).Some?
  }

  /******* Picking a key *******/

  lemma {:induction false} WithKeyConcat<E(!new)>(fk: E -> Option<Id>, k: Id, a: seq<E>, b: seq<E>)
    ensures WithKey(fk, k, a + b) == WithKey(fk, k, a) + WithKey(fk, k, b)
  {
    if b == [] {
      assert a + b == a;
    } else {
      WithKeyConcat(fk, k, a, Init(b));
      assert Init(a + b) == a + Init(b);
    }
  }

  lemma WithKeyCut<E(!new)>(fk: E -> Option<Id>, k: Id, s: seq<E>, i: nat)
    requires i <= |s|
    ensures WithKey(fk, k, s) == WithKey(fk, k, s[..i]) + WithKey(fk, k, s[i..])
  {
    assert s == s[..i] + s[i..];
    WithKeyConcat(fk, k, s[..i], s[i..]);
  }

  lemma {:induction false} WithKeyLength<E(!new)>(fk: E -> Option<Id>, k: Id, s: seq<E>)
    ensures |WithKey(fk, k, s)| <= |s|
    ensures (exists i :: 0 <= i < |s| && fk(s[i]) != Some(k)) ==> |WithKey(fk, k, s)| < |s|
    ensures (exists i :: 0 <= i < |s| && fk(s[i]) == Some(k)) ==> 0 < |WithKey(fk, k, s)|
  {
    if s != [] {
      WithKeyLength(fk, k, Init(s));
      assert forall i :: 0 <= i < |s| ==> s[i] == if i < |s| - 1 then Init(s)[i] else Last(s);
    }
  }

  lemma {:induction false} WithKeyAll<E(!new)>(fk: E -> Option<Id>, k: Id, s: seq<E>)
    requires forall i :: 0 <= i < |s| ==> fk(s[i]) == Some(k)
    ensures WithKey(fk, k, s) == s
  {
    if s != [] {
      var init := Init(s);
      assert forall i :: 0 <= i < |init| ==> init[i] == s[i];
      WithKeyAll(fk, k, init);
      assert Last(s) == s[|s| - 1];
      assert s == init + [Last(s)];
    }
  }

  lemma {:induction false} WithKeyNone<E(!new)>(fk: E -> Option<Id>, k: Id, s: seq<E>)
    requires forall i :: 0 <= i < |s| ==> fk(s[i]) != Some(k)
    ensures WithKey(fk, k, s) == []
  {
    if s != [] {
      WithKeyNone(fk, k, Init(s));
    }
  }

  lemma WithKeyHead<E(!new)>(fk: E -> Option<Id>, k: Id, s: seq<E>)
    requires s != [] && fk(s[0]) == Some(k)
    ensures WithKey(fk, k, s) != [] && WithKey(fk, k, s)[0] == s[0]
  {
    WithKeyCut(fk, k, s, 1);
    assert s[..1] == [s[0]] && Init([s[0]]) == [] && Last([s[0]]) == s[0];
  }

  lemma {:induction false} WithKeyDistinct<E(!new)>(fk: E -> Option<Id>, k: Id, s: seq<E>)
    requires NoDuplicates(s)
    ensures NoDuplicates(WithKey(fk, k, s))
  {
    if s != [] {
      WithKeyDistinct(fk, k, Init(s));
      WithKeyMeaning(fk, k, Init(s));
      var rest := WithKey(fk, k, Init(s));
      forall i | 0 <= i < |rest| ensures rest[i] != Last(s) {
        assert rest[i] in rest;
        var j :| 0 <= j < |Init(s)| && Init(s)[j] == rest[i];
        assert s[j] == rest[i];
      }
    }
  }

  /******* Harmless windows *******/

  lemma HarmlessAgrees<E(!new)>(limit: Option<nat>, offset: nat, fk: E -> Option<Id>, rows: seq<E>, k: Id)
    requires Harmless(limit, offset, fk, rows)
    ensures Agrees(limit, offset, fk, rows, k)
  {
    var e := End(limit, offset, |rows|);
    WithKeyLength(fk, k, rows);
    if offset == 0 && e == |rows| {
      assert rows != [] ==> rows[0..e] == rows;
      WholeWindow(limit, WithKey(fk, k, rows), |rows|);
    } else if offset < |rows| {
      OneKeyAgrees(limit, offset, fk, rows, k);
    }
  }

  /** A limit that leaves a list alone leaves every shorter one alone. */
  lemma WholeWindow<E>(limit: Option<nat>, s: seq<E>, n: nat)
    requires |s| <= n && End(limit, 0, n) == n
    ensures Window(limit, 0, s) == s
  {
  }

  /** The key that has the window and everything before it. */
  lemma OwnKeyAgrees<E(!new)>(limit: Option<nat>, offset: nat, fk: E -> Option<Id>, rows: seq<E>, k: Id)
    requires offset < |rows| && forall i :: 0 <= i < End(limit, offset, |rows|) ==> fk(rows[i]) == Some(k)
    ensures Agrees(limit, offset, fk, rows, k)
  {
    var e := End(limit, offset, |rows|);
    var front, window, all := rows[..e], rows[offset..e], WithKey(fk, k, rows);
    WithKeyAll(fk, k, window);
    WithKeyAll(fk, k, front);
    WithKeyCut(fk, k, rows, e);
    assert all == front + WithKey(fk, k, rows[e..]);
    if e == |rows| {
      assert rows[e..] == [];
    }
    assert all[offset..e] == window;
  }

  lemma OneKeyAgrees<E(!new)>(limit: Option<nat>, offset: nat, fk: E -> Option<Id>, rows: seq<E>, k: Id)
    requires offset < |rows| && OneKey(fk, rows[..End(limit, offset, |rows|)])
    requires forall k :: Some(k) != fk(rows[0]) ==> |WithKey(fk, k, rows)| <= offset
    ensures Agrees(limit, offset, fk, rows, k)
  {
    var e := End(limit, offset, |rows|);
    var front, window := rows[..e], rows[offset..e];
    forall i | 0 <= i < e ensures fk(rows[i]) == fk(rows[0]) {
      assert front[i] == rows[i] && front[0] == rows[0];
    }
    if fk(rows[0]) == Some(k) {
      OwnKeyAgrees(limit, offset, fk, rows, k);
    } else {
      WithKeyNone(fk, k, window);
    }
  }

  /******* Windows that cut *******/

  /** A limit alone: if two keys share the batch, some account loses rows or gains them. */
  lemma LimitCutsSomeone<E(!new)>(limit: Option<nat>, fk: E -> Option<Id>, rows: seq<E>) returns (k: Id)
    requires AllKeyed(fk, rows) && End(limit, 0, |rows|) < |rows| && !OneKey(fk, rows)
    ensures !Agrees(limit, 0, fk, rows, k)
  {
    var e := End(limit, 0, |rows|);
    k := fk(rows[e]).value;
    var front, back := rows[..e], rows[e..];
    assert Window(limit, 0, rows) == front;
    if j :| 0 <= j < e && fk(front[j]) != Some(k) {
      WithKeyCut(fk, k, rows, e);
      WithKeyLength(fk, k, front);
      assert fk(back[0]) == Some(k);
      WithKeyLength(fk, k, back);
    } else {
      assert forall j :: 0 <= j < e ==> fk(rows[j]) == fk(front[j]);
      var j :| 0 <= j < |rows| && fk(rows[j]) != Some(k);
      k := fk(rows[j]).value;
      WithKeyNone(fk, k, front);
      WithKeyLength(fk, k, rows);
    }
  }

  /** An offset: everything before the window has the key of its first row. */
  lemma SkippedHaveOneKey<E(!new)>(limit: Option<nat>, offset: nat, fk: E -> Option<Id>, rows: seq<E>, k: Id)
    requires NoDuplicates(rows) && offset < |rows| && fk(rows[offset]) == Some(k)
    requires Agrees(limit, offset, fk, rows, k)
    ensures forall i :: 0 <= i <= offset ==> fk(rows[i]) == Some(k)
  {
    var e := End(limit, offset, |rows|);
    var front, window, all := rows[..offset], rows[offset..e], WithKey(fk, k, rows);
    WithKeyHead(fk, k, window);
    WithKeyCut(fk, k, rows, offset);
    WithKeyHead(fk, k, rows[offset..]);
    var skipped := WithKey(fk, k, front);
    assert all[|skipped|] == rows[offset];
    assert all[offset] == rows[offset];
    WithKeyDistinct(fk, k, rows);
    assert |skipped| == offset;
    WithKeyLength(fk, k, front);
    forall i | 0 <= i < offset ensures fk(rows[i]) == Some(k) {
      assert front[i] == rows[i];
    }
  }

  /** With something skipped, no second key gets into the window. */
  lemma WindowHasOneKey<E(!new)>(limit: Option<nat>, offset: nat, fk: E -> Option<Id>, rows: seq<E>, k: Id, k': Id)
    requires NoDuplicates(rows) && 0 < offset < |rows|
    requires forall i :: 0 <= i <= offset ==> fk(rows[i]) == Some(k)
    requires k' != k && Agrees(limit, offset, fk, rows, k')
    ensures WithKey(fk, k', Window(limit, offset, rows)) == []
  {
    var e := End(limit, offset, |rows|);
    var window, all := rows[offset..e], WithKey(fk, k', rows);
    var inside := WithKey(fk, k', window);
    if inside != [] {
      WithKeyNone(fk, k', rows[..offset]);
      SameHead(fk, k', rows, offset, e);
      assert all[0] == inside[0] == all[offset];
      WithKeyDistinct(fk, k', rows);
      assert false;
    }
  }

  /** If nothing before a cut has the key, the key's first row is the first one after it. */
  lemma SameHead<E(!new)>(fk: E -> Option<Id>, k: Id, rows: seq<E>, i: nat, j: nat)
    requires i <= j <= |rows| && WithKey(fk, k, rows[..i]) == [] && WithKey(fk, k, rows[i..j]) != []
    ensures WithKey(fk, k, rows) != [] && WithKey(fk, k, rows)[0] == WithKey(fk, k, rows[i..j])[0]
  {
    WithKeyCut(fk, k, rows, i);
    WithKeyCut(fk, k, rows[i..], j - i);
    assert rows[i..][..j - i] == rows[i..j];
  }

  lemma OffsetForcesOneKey<E(!new)>(limit: Option<nat>, offset: nat, fk: E -> Option<Id>, rows: seq<E>)
    requires AllKeyed(fk, rows) && NoDuplicates(rows) && 0 < offset < |rows|
    requires forall k :: Agrees(limit, offset, fk, rows, k)
    ensures Harmless(limit, offset, fk, rows)
  {
    var e, k: Id := End(limit, offset, |rows|), fk(rows[offset]).value;
    var window := rows[offset..e];
    SkippedHaveOneKey(limit, offset, fk, rows, k);
    forall k' | k' != k
      ensures |WithKey(fk, k', rows)| <= offset && WithKey(fk, k', window) == []
    {
      WindowHasOneKey(limit, offset, fk, rows, k, k');
      assert Agrees(limit, offset, fk, rows, k');
    }
    forall i | 0 <= i < e ensures fk(rows[i]) == Some(k) {
      if i >= offset {
        var k': Id := fk(rows[i]).value;
        assert window[i - offset] == rows[i];
        WithKeyLength(fk, k', window);
      }
    }
    assert forall i :: 0 <= i < e ==> rows[..e][i] == rows[i];
  }

  /**
   The exact condition, for any limit and offset: every key gets from the one window what its own query would give it
   if and only if the window is harmless.
   */
  lemma WindowIff<E(!new)>(limit: Option<nat>, offset: nat, fk: E -> Option<Id>, rows: seq<E>)
    requires AllKeyed(fk, rows) && NoDuplicates(rows)
    ensures (forall k :: Agrees(limit, offset, fk, rows, k)) <==> Harmless(limit, offset, fk, rows)
  {
    if Harmless(limit, offset, fk, rows) {
      forall k ensures Agrees(limit, offset, fk, rows, k) {
        HarmlessAgrees(limit, offset, fk, rows, k);
      }
    } else if offset > 0 {
      if forall k :: Agrees(limit, offset, fk, rows, k) {
        OffsetForcesOneKey(limit, offset, fk, rows);
      }
    } else {
      if OneKey(fk, rows) {
        OneKeyIsHarmless(limit, 0, fk, rows);
      }
      var k := LimitCutsSomeone(limit, fk, rows);
    }
  }

  lemma OneKeyIsHarmless<E(!new)>(limit: Option<nat>, offset: nat, fk: E -> Option<Id>, rows: seq<E>)
    requires OneKey(fk, rows)
    ensures Harmless(limit, offset, fk, rows)
  {
    if offset < |rows| {
      var e := End(limit, offset, |rows|);
      assert forall i :: 0 <= i < e ==> rows[..e][i] == rows[i];
      forall k | Some(k) != fk(rows[0]) ensures |WithKey(fk, k, rows)| <= offset {
        WithKeyNone(fk, k, rows);
      }
    }
  }

  /** A limit alone is harmless if and only if there is none, it cuts nothing, or one account has all the rows. */
  lemma LimitAlone<E(!new)>(limit: nat, fk: E -> Option<Id>, rows: seq<E>)
    requires AllKeyed(fk, rows)
    ensures Harmless(Some(limit), 0, fk, rows) <==> limit == 0 || |rows| <= limit || OneKey(fk, rows)
  {
    if OneKey(fk, rows) {
      OneKeyIsHarmless(Some(limit), 0, fk, rows);
    }
    if Harmless(Some(limit), 0, fk, rows) && 0 < limit < |rows| {
      forall i | 0 <= i < |rows| ensures fk(rows[i]) == fk(rows[0]) {
        WithKeyLength(fk, fk(rows[i]).value, rows);
      }
    }
  }

  /** An offset alone is harmless if and only if it is zero, it skips everything, or one account has all the rows. */
  lemma OffsetAlone<E(!new)>(offset: nat, fk: E -> Option<Id>, rows: seq<E>)
    requires AllKeyed(fk, rows) && |rows| <= offset + MAX_INT32
    ensures Harmless(None, offset, fk, rows) <==> offset == 0 || |rows| <= offset || OneKey(fk, rows)
  {
    if OneKey(fk, rows) {
      OneKeyIsHarmless(None, offset, fk, rows);
    }
    assert rows[..|rows|] == rows;
  }

  /** To-one edges: with distinct keys only a window that cuts nothing or everything is harmless. */
  lemma HarmlessToOne<E(!new)>(limit: Option<nat>, offset: nat, fk: E -> Option<Id>, rows: seq<E>)
    requires AllKeyed(fk, rows) && DistinctBy(fk, rows)
    ensures Harmless(limit, offset, fk, rows) <==>
            (offset == 0 && End(limit, 0, |rows|) == |rows|) || |rows| <= offset
  {
    if offset < |rows| && Harmless(limit, offset, fk, rows) && !(offset == 0 && End(limit, 0, |rows|) == |rows|) {
      var e := End(limit, offset, |rows|);
      assert rows[..e][0] == rows[0] && rows[..e][e - 1] == rows[e - 1];
      assert fk(rows[0]) == fk(rows[e - 1]);
      WithKeyLength(fk, fk(rows[1]).value, rows);
    }
  }
}
