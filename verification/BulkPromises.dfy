/**
 What callers expect of a bulk save, and exactly which hooks keep it: nothing is marked done without an insert,
 everything is marked done after one, the result tells which, and what is inserted was validated.
 */
module BulkPromises {
  import opened Prelude
  import opened EntSchema
  import AccountSchema
  import opened AccountCreate
  import opened RowCodec
  import opened BulkCreate
  import opened BulkLaws
  import opened BulkHooks

  /** The inputs of a save under the given hooks. */
  ghost predicate Fits(hooks: seq<seq<Hook>>, w: World, data: seq<AccountMutation>) {
    w.hooks == hooks && ValidWorld(w) && |data| == |hooks|
  }

  const ANY_NODE: AccountNode := Node(map[], map[])
  const ANY_SPEC: AccountSpec := Spec(map[], map[])
  const ANY_MUTATION: AccountMutation := Mutation(map[], map[])

  /** An entity that rejects the mutations that `bad` picks out. */
  function Entity(bad: AccountMutation -> bool): Template {
    Template(m => m, m => if bad(m) then Some(Missing(AccountSchema.Name)) else None,
             m => ANY_NODE, m => ANY_SPEC, (n, i) => n, n => 0)
  }

  /** An entity without validation, and a database that refuses the batch. */
  function Refusing(hooks: seq<seq<Hook>>): World {
    World(Entity(m => false), hooks, Failed(false, "refused"))
  }

  /** An entity without validation, and a database that accepts the batch. */
  function Accepting(hooks: seq<seq<Hook>>): World {
    World(Entity(m => false), hooks, Created(seq(|hooks|, _ => Some(0))))
  }

  function AnyData(hooks: seq<seq<Hook>>): seq<AccountMutation> {
    seq(|hooks|, _ => ANY_MUTATION)
  }

  /******* Nothing is marked done without an insert *******/

  /** Every done mutation is backed by a batch that went through. */
  ghost predicate Backed(s: State) {
    forall j :: 0 <= j < |s.mutations| && s.mutations[j].done ==> s.created.Some?
  }

  lemma {:induction false} HonestMutate(w: World, i: nat, h: nat, m: MutationState, s: State)
    requires ValidWorld(w) && Shape(w, s) && i < |w.hooks| && h <= |w.hooks[i]|
    requires s.created.None? && Undone(s) && !m.done
    requires Open(w.hooks, i) && Honest(w.hooks, i) && (forall g :: 0 <= g < h ==> !Blocks(w.hooks[i][g]))
    ensures var (s', e) := Mutate(w, i, h, m, s);
            Backed(s') && (e.None? ==> s'.created.Some? || StackMasks(w.hooks[i][h..]))
    decreases |w.hooks| - i, 1, |w.hooks[i]| - h
  {
    if h == |w.hooks[i]| {
      HonestBody(w, i, m, s);
    } else {
      var k := w.hooks[i][h];
      assert w.hooks[i][h..][1..] == w.hooks[i][h + 1..];
      if !Blocks(k) {
        var m' := if k.Replace? then MutationState(k.m, None, false) else m;
        HonestMutate(w, i, h + 1, m', Log(s, Enter(i, h)));
      }
    }
  }

  lemma {:induction false} HonestBody(w: World, i: nat, m: MutationState, s: State)
    requires ValidWorld(w) && Shape(w, s) && i < |w.hooks|
    requires s.created.None? && Undone(s) && !m.done
    requires Open(w.hooks, i) && Honest(w.hooks, i) && (forall g :: 0 <= g < |w.hooks[i]| ==> !Blocks(w.hooks[i][g]))
    ensures var (s', e) := Body(w, i, m, s);
            Backed(s') && (e.None? ==> s'.created.Some?)
    decreases |w.hooks| - i, 0, 0
  {
    if Passes(w, s.mutations, i) && i < |w.hooks| - 1 {
      var p := Prepared(w, i, m, s);
      assert Open(w.hooks, i + 1);
      assert w.hooks[i + 1][0..] == w.hooks[i + 1];
      HonestMutate(w, i + 1, 0, p.mutations[i + 1], p);
    }
  }

  /** A stack whose outermost opinion is to mask reports success in every world. */
  lemma {:induction false} MaskReportsSuccess(w: World, i: nat, h: nat, m: MutationState, s: State)
    requires ValidWorld(w) && Shape(w, s) && i < |w.hooks| && h <= |w.hooks[i]|
    requires StackMasks(w.hooks[i][h..])
    ensures Mutate(w, i, h, m, s).1.None?
    decreases |w.hooks[i]| - h
  {
    var k := w.hooks[i][h];
    assert w.hooks[i][h..][0] == k && w.hooks[i][h..][1..] == w.hooks[i][h + 1..];
    if !Opinionated(k) {
      var m' := if k.Replace? then MutationState(k.m, None, false) else m;
      MaskReportsSuccess(w, i, h + 1, m', Log(s, Enter(i, h)));
    }
  }

  ghost predicate PassesAll(w: World) {
    forall d :: w.entity.check(d).None?
  }

  /** The builder just outside a masking stack is marked done. */
  lemma {:induction false} MaskedMutate(w: World, i: nat, h: nat, m: MutationState, s: State, k: nat)
    requires ValidWorld(w) && Shape(w, s) && i < k < |w.hooks| && h <= |w.hooks[i]|
    requires PassesAll(w) && Open(w.hooks, k) && StackMasks(w.hooks[k])
    ensures Mutate(w, i, h, m, s).0.mutations[k - 1].done
    decreases k - i, 1, |w.hooks[i]| - h
  {
    if h == |w.hooks[i]| {
      var p := Prepared(w, i, m, s);
      if i + 1 == k {
        assert w.hooks[k][0..] == w.hooks[k];
        MaskReportsSuccess(w, k, 0, p.mutations[k], p);
      } else {
        MaskedMutate(w, i + 1, 0, p.mutations[i + 1], p, k);
      }
    } else {
      var hk := w.hooks[i][h];
      assert !Blocks(hk);
      var m' := if hk.Replace? then MutationState(hk.m, None, false) else m;
      MaskedMutate(w, i, h + 1, m', Log(s, Enter(i, h)), k);
    }
  }

  /** Nothing is marked done unless the rows were inserted: exactly when no reachable stack after the first masks. */
  lemma NothingIffHonest(hooks: seq<seq<Hook>>)
    ensures Honest(hooks, 0) <==>
            forall w: World, data: seq<AccountMutation> :: Fits(hooks, w, data) ==> Backed(Save(w, data, None).0)
  {
    if Honest(hooks, 0) {
      forall w: World, data: seq<AccountMutation> | Fits(hooks, w, data) ensures Backed(Save(w, data, None).0) {
        if |data| > 0 {
          var s0 := Start(Defaulted(w, data));
          HonestMutate(w, 0, 0, s0.mutations[0], s0);
        }
      }
    } else {
      var k :| 0 < k < |hooks| && Open(hooks, k) && StackMasks(hooks[k]);
      var w, data := Refusing(hooks), AnyData(hooks);
      var s0 := Start(Defaulted(w, data));
      MaskedMutate(w, 0, 0, s0.mutations[0], s0, k);
      AnyBulkSave(w, data);
      assert Fits(hooks, w, data);
      assert Save(w, data, None).0.mutations[k - 1].done;
    }
  }

  /******* Everything is marked done after an insert *******/

  /** The outermost opinion of the stack is an error of its own, raised after the mutator ran. */
  ghost predicate StackFails(hs: seq<Hook>) {
    FirstOpinion(hs).Some? && FirstOpinion(hs).value.FailAfter?
  }

  /** The mutations from builder `i` on are done. */
  ghost predicate DoneFrom(s: State, i: nat) {
    forall j :: i <= j < |s.mutations| ==> s.mutations[j].done
  }

  ghost predicate Complete(s: State) {
    s.created.Some? ==> DoneFrom(s, 0)
  }

  /** No stack after builder `i` turns a success into an error. */
  ghost predicate Loyal(hooks: seq<seq<Hook>>, i: nat) {
    forall k :: i < k < |hooks| ==> !StackFails(hooks[k])
  }

  /** With nothing in the way and a batch that goes through, the builders from `i` on are done. */
  lemma {:induction false} LoyalMutate(w: World, i: nat, h: nat, m: MutationState, s: State)
    requires ValidWorld(w) && Shape(w, s) && i < |w.hooks| && h <= |w.hooks[i]|
    requires Clear(w.hooks, i, h) && Loyal(w.hooks, i) && w.outcome.Created? && AllPass(w, s.mutations, i)
    ensures var (s', e) := Mutate(w, i, h, m, s);
            && DoneFrom(s', i)
            && (!StackFails(w.hooks[i][h..]) ==> e.None?)
    decreases |w.hooks| - i, 1, |w.hooks[i]| - h
  {
    if h == |w.hooks[i]| {
      LoyalBody(w, i, m, s);
    } else {
      var k := w.hooks[i][h];
      assert w.hooks[i][h..][0] == k && w.hooks[i][h..][1..] == w.hooks[i][h + 1..];
      var m' := if k.Replace? then MutationState(k.m, None, false) else m;
      var inside := Log(s, Enter(i, h));
      assert !Blocks(k) && AllPass(w, inside.mutations, i);
      LoyalMutate(w, i, h + 1, m', inside);
      var inner := Mutate(w, i, h + 1, m', inside);
      assert Mutate(w, i, h, m, s).0 == Log(inner.0, Exit(i, h));
    }
  }

  lemma {:induction false} LoyalBody(w: World, i: nat, m: MutationState, s: State)
    requires ValidWorld(w) && Shape(w, s) && i < |w.hooks|
    requires Clear(w.hooks, i, |w.hooks[i]|) && Loyal(w.hooks, i) && w.outcome.Created? && AllPass(w, s.mutations, i)
    ensures var (s', e) := Body(w, i, m, s);
            DoneFrom(s', i) && e.None?
    decreases |w.hooks| - i, 0, 0
  {
    assert Passes(w, s.mutations, i);
    if i < |w.hooks| - 1 {
      var p := Prepared(w, i, m, s);
      forall j | i < j < |w.hooks| ensures Passes(w, p.mutations, j) {
        assert Passes(w, s.mutations, j) && p.mutations[j] == s.mutations[j];
      }
      assert w.hooks[i + 1][0..] == w.hooks[i + 1];
      LoyalMutate(w, i + 1, 0, p.mutations[i + 1], p);
    }
  }

  /** A stack whose outermost opinion is to fail returns an error in every world. */
  lemma {:induction false} FailReportsError(w: World, i: nat, h: nat, m: MutationState, s: State)
    requires ValidWorld(w) && Shape(w, s) && i < |w.hooks| && h <= |w.hooks[i]|
    requires StackFails(w.hooks[i][h..])
    ensures Mutate(w, i, h, m, s).1.Some?
    decreases |w.hooks[i]| - h
  {
    var k := w.hooks[i][h];
    assert w.hooks[i][h..][0] == k && w.hooks[i][h..][1..] == w.hooks[i][h + 1..];
    if !Opinionated(k) {
      var m' := if k.Replace? then MutationState(k.m, None, false) else m;
      FailReportsError(w, i, h + 1, m', Log(s, Enter(i, h)));
    }
  }

  /** The builder just outside a failing stack is not marked done. */
  lemma {:induction false} FailedMutate(w: World, i: nat, h: nat, m: MutationState, s: State, k: nat)
    requires ValidWorld(w) && Shape(w, s) && i < k < |w.hooks| && h <= |w.hooks[i]|
    requires StackFails(w.hooks[k]) && !m.done && Undone(s)
    ensures !Mutate(w, i, h, m, s).0.mutations[k - 1].done
    decreases k - i, 1, |w.hooks[i]| - h
  {
    if h == |w.hooks[i]| {
      if Passes(w, s.mutations, i) {
        var p := Prepared(w, i, m, s);
        if i + 1 == k {
          assert w.hooks[k][0..] == w.hooks[k];
          FailReportsError(w, k, 0, p.mutations[k], p);
        } else {
          FailedMutate(w, i + 1, 0, p.mutations[i + 1], p, k);
        }
      }
    } else if !Blocks(w.hooks[i][h]) {
      var hk := w.hooks[i][h];
      var m' := if hk.Replace? then MutationState(hk.m, None, false) else m;
      FailedMutate(w, i, h + 1, m', Log(s, Enter(i, h)), k);
    }
  }

  /** An insert marks everything done: exactly when some hook blocks, or no stack after the first fails afterwards. */
  lemma AllIffLoyal(hooks: seq<seq<Hook>>)
    ensures !Open(hooks, |hooks|) || Loyal(hooks, 0) <==>
            forall w: World, data: seq<AccountMutation> :: Fits(hooks, w, data) ==> Complete(Save(w, data, None).0)
  {
    if !Open(hooks, |hooks|) || Loyal(hooks, 0) {
      forall w: World, data: seq<AccountMutation> | Fits(hooks, w, data) ensures Complete(Save(w, data, None).0) {
        AnyBulkSave(w, data);
        var s0 := Start(Defaulted(w, data));
        if Save(w, data, None).0.created.Some? {
          assert Clear(hooks, 0, 0);
          LoyalMutate(w, 0, 0, s0.mutations[0], s0);
          assert Save(w, data, None).0 == Mutate(w, 0, 0, s0.mutations[0], s0).0;
        }
      }
    } else {
      var k :| 0 < k < |hooks| && StackFails(hooks[k]);
      var w, data := Accepting(hooks), AnyData(hooks);
      var s0 := Start(Defaulted(w, data));
      AnyBulkSave(w, data);
      FailedMutate(w, 0, 0, s0.mutations[0], s0, k);
      assert Fits(hooks, w, data);
      assert !Save(w, data, None).0.mutations[k - 1].done;
    }
  }

  /** All done and inserted, or none done and nothing inserted. */
  ghost predicate AllOrNothing(s: State) {
    || (s.created.Some? && DoneFrom(s, 0))
    || (s.created.None? && Undone(s))
  }

  /**
   All-or-nothing holds for every entity, every input and every outcome of the batch exactly when no reachable stack
   after the first hides errors, and either some hook blocks or no stack after the first fails afterwards.
   */
  lemma AllOrNothingIff(hooks: seq<seq<Hook>>)
    ensures Honest(hooks, 0) && (!Open(hooks, |hooks|) || Loyal(hooks, 0)) <==>
            forall w: World, data: seq<AccountMutation> :: Fits(hooks, w, data) ==> AllOrNothing(Save(w, data, None).0)
  {
    NothingIffHonest(hooks);
    AllIffLoyal(hooks);
    forall s: State ensures AllOrNothing(s) <==> Backed(s) && Complete(s) {
    }
  }

  /** Two builders, an error-hiding hook on the second, a refused batch: the first mutation is marked done. */
  lemma HiddenErrorMarksDone(data: seq<AccountMutation>)
    requires |data| == 2
    ensures var (s, r) := Save(Refusing([[], [Swallow]]), data, None);
            r.Ok? && s.created.None? && s.mutations[0].done
  {
    var w := Refusing([[], [Swallow]]);
    var s0 := Start(Defaulted(w, data));
    assert w.hooks[1][0..] == w.hooks[1] && FirstOpinion(w.hooks[1]) == Some(Swallow);
    MaskedMutate(w, 0, 0, s0.mutations[0], s0, 1);
    AnyBulkSave(w, data);
    var p := Prepared(w, 0, s0.mutations[0], s0);
    MaskReportsSuccess(w, 1, 0, p.mutations[1], p);
  }

  /** Two builders, a hook on the second that fails afterwards: the rows are there, the error too, and one is done. */
  lemma LateErrorSplitsTheBatch(data: seq<AccountMutation>, code: nat)
    requires |data| == 2
    ensures var (s, r) := Save(Accepting([[], [FailAfter(code)]]), data, None);
            r == Err(FromHook(code)) && s.created.Some? && !s.mutations[0].done && s.mutations[1].done
  {
    var w := Accepting([[], [FailAfter(code)]]);
    var s0 := Start(Defaulted(w, data));
    AnyBulkSave(w, data);
    assert w.hooks[0][0..] == [] && w.hooks[1][0..] == w.hooks[1];
    var p := Prepared(w, 0, s0.mutations[0], s0);
    var inside := Log(p, Enter(1, 0));
    LoyalBody(w, 1, p.mutations[1], inside);
    var last := Body(w, 1, p.mutations[1], inside).0;
    assert Mutate(w, 1, 1, p.mutations[1], inside) == Body(w, 1, p.mutations[1], inside);
    assert Mutate(w, 1, 0, p.mutations[1], p) == (Log(last, Exit(1, 0)), Some(FromHook(code)));
    assert Body(w, 0, s0.mutations[0], s0) == (Log(last, Exit(1, 0)), Some(FromHook(code)));
    assert Mutate(w, 0, 0, s0.mutations[0], s0) == Body(w, 0, s0.mutations[0], s0);
  }

  /******* The result tells whether the rows were inserted *******/

  /** The outermost hook with an opinion, from hook `h` of builder `i` inwards over all builders. */
  ghost function Opinion(hooks: seq<seq<Hook>>, i: nat, h: nat): Option<Hook>
    requires i < |hooks| && h <= |hooks[i]|
    decreases |hooks| - i, |hooks[i]| - h
  {
    if h < |hooks[i]| then if Opinionated(hooks[i][h]) then Some(hooks[i][h]) else Opinion(hooks, i, h + 1)
    else if i < |hooks| - 1 then Opinion(hooks, i + 1, 0)
    else None
  }

  /** Without an opinion the batch decides; otherwise the outermost opinion does, if the checks before it pass. */
  lemma {:induction false} OpinionDecides(w: World, i: nat, h: nat, m: MutationState, s: State)
    requires ValidWorld(w) && Shape(w, s) && i < |w.hooks| && h <= |w.hooks[i]| && s.created.None?
    ensures var (s', e) := Mutate(w, i, h, m, s);
            var o := Opinion(w.hooks, i, h);
            && (o.None? ==> (e.None? <==> s'.created.Some?))
            && (o.Some? && !Masks(o.value) ==> e.Some?)
            && (o.Some? && PassesAll(w) ==> forall code ::
                  (o.value == Veto(code) || o.value == FailAfter(code) ==> e == Some(FromHook(code))))
            && (o.Some? && Masks(o.value) && PassesAll(w) ==> e.None?)
    decreases |w.hooks| - i, |w.hooks[i]| - h
  {
    if h < |w.hooks[i]| {
      var k := w.hooks[i][h];
      if !Opinionated(k) {
        var m' := if k.Replace? then MutationState(k.m, None, false) else m;
        OpinionDecides(w, i, h + 1, m', Log(s, Enter(i, h)));
      }
    } else if Passes(w, s.mutations, i) && i < |w.hooks| - 1 {
      var p := Prepared(w, i, m, s);
      OpinionDecides(w, i + 1, 0, p.mutations[i + 1], p);
    }
  }

  /**
   Success is reported exactly when the rows were inserted, for every entity, input and outcome: exactly when no hook
   has an opinion of its own, or the outermost opinion is an error and some hook keeps the batch from being called.
   */
  lemma TruthfulIff(hooks: seq<seq<Hook>>)
    requires hooks != []
    ensures var o := Opinion(hooks, 0, 0);
            o.None? || (!Masks(o.value) && !Open(hooks, |hooks|)) <==>
            forall w: World, data: seq<AccountMutation> :: Fits(hooks, w, data) ==>
              (Save(w, data, None).1.Ok? <==> Save(w, data, None).0.created.Some?)
  {
    var o := Opinion(hooks, 0, 0);
    forall w: World, data: seq<AccountMutation> | Fits(hooks, w, data)
      ensures var (s, r) := Save(w, data, None);
              && (o.None? ==> (r.Ok? <==> s.created.Some?))
              && (o.Some? && !Masks(o.value) ==> r.Err?)
              && (o.Some? && Masks(o.value) && PassesAll(w) ==> r.Ok?)
              && (s.created.Some? ==> Open(hooks, |hooks|) && w.outcome.Created?)
    {
      var s0 := Start(Defaulted(w, data));
      OpinionDecides(w, 0, 0, s0.mutations[0], s0);
      AnyBulkSave(w, data);
    }
    if o.Some? && Masks(o.value) {
      assert Fits(hooks, Refusing(hooks), AnyData(hooks));
    } else if o.Some? && Open(hooks, |hooks|) {
      assert Fits(hooks, Accepting(hooks), AnyData(hooks));
      AnyBulkSave(Accepting(hooks), AnyData(hooks));
    }
  }

  /******* What is inserted was validated *******/

  ghost predicate Replaces(hs: seq<Hook>) {
    exists h :: 0 <= h < |hs| && hs[h].Replace?
  }

  /** A stack hands on its last replacement, or what it was given. */
  lemma {:induction false} HandedMeaning(hs: seq<Hook>, a: AccountMutation, b: AccountMutation)
    ensures if Replaces(hs) then Handed(hs, a) == Handed(hs, b) else Handed(hs, a) == a
  {
    if hs != [] {
      var k := hs[0];
      HandedMeaning(hs[1..], if k.Replace? then k.m else a, if k.Replace? then k.m else b);
      assert Replaces(hs) <==> k.Replace? || Replaces(hs[1..]) by {
        if Replaces(hs) && !k.Replace? {
          var h :| 0 <= h < |hs| && hs[h].Replace?;
          assert hs[1..][h - 1] == hs[h];
        }
      }
    }
  }

  /** A batch call carries only mutations that pass the check. */
  ghost predicate OnlyValidated(w: World, data: seq<AccountMutation>)
    requires ValidWorld(w) && |data| == |w.hooks|
  {
    Batches(Save(w, data, None).0.trace) == 1 ==>
      forall j :: 0 <= j < |data| ==> w.entity.check(Handed(w.hooks[j], w.entity.defaults(data[j]))).None?
  }

  /**
   Save validates the builder's own mutation and inserts the one its hooks handed on.  What is inserted was validated,
   for every entity, input and outcome, exactly when some hook blocks or no hook replaces the mutation.
   */
  lemma ValidatedIff(hooks: seq<seq<Hook>>)
    ensures !Open(hooks, |hooks|) || (forall j :: 0 <= j < |hooks| ==> !Replaces(hooks[j])) <==>
            forall w: World, data: seq<AccountMutation> :: Fits(hooks, w, data) ==> OnlyValidated(w, data)
  {
    if !Open(hooks, |hooks|) || (forall j :: 0 <= j < |hooks| ==> !Replaces(hooks[j])) {
      forall w: World, data: seq<AccountMutation> | Fits(hooks, w, data) ensures OnlyValidated(w, data) {
        AnyBulkSave(w, data);
        if Batches(Save(w, data, None).0.trace) == 1 {
          forall j | 0 <= j < |data| ensures w.entity.check(Handed(w.hooks[j], w.entity.defaults(data[j]))).None? {
            HandedMeaning(hooks[j], w.entity.defaults(data[j]), ANY_MUTATION);
            assert Passes(w, Start(Defaulted(w, data)).mutations, j);
          }
        }
      }
    } else {
      var j :| 0 <= j < |hooks| && Replaces(hooks[j]);
      var w, data := UncheckedReplacement(hooks, j);
    }
  }

  /** The entity refuses only what the stack of builder `j` puts in place of its mutation. */
  lemma UncheckedReplacement(hooks: seq<seq<Hook>>, j: nat) returns (w: World, data: seq<AccountMutation>)
    requires Open(hooks, |hooks|) && j < |hooks| && Replaces(hooks[j])
    ensures Fits(hooks, w, data) && !OnlyValidated(w, data)
  {
    var bad := Handed(hooks[j], ANY_MUTATION);
    var other := Mutation(map[], map[AccountSchema.ProxyID := 0]);
    assert AccountSchema.ProxyID in other.edges;
    var good := if bad == ANY_MUTATION then other else ANY_MUTATION;
    w := World(Entity(m => m == bad), hooks, Failed(false, "refused"));
    data := seq(|hooks|, _ => good);
    AnyBulkSave(w, data);
    HandedMeaning(hooks[j], ANY_MUTATION, good);
    var s0 := Start(Defaulted(w, data));
    forall i | 0 <= i < |hooks| ensures Passes(w, s0.mutations, i) {
      assert s0.mutations[i].data == good;
    }
    assert w.entity.check(Handed(w.hooks[j], w.entity.defaults(data[j]))).Some?;
  }

  /** One builder, one replacing hook: the batch carries a mutation that its own check would have refused. */
  lemma ReplacedMutationIsNotChecked(w: World, own: AccountMutation, other: AccountMutation)
    requires ValidWorld(w) && w.hooks == [[Replace(other)]]
    requires w.entity.check(w.entity.defaults(own)).None? && w.entity.check(other).Some?
    ensures Batch([Some(w.entity.spec(other))]) in Save(w, [own], None).0.trace && !OnlyValidated(w, [own])
  {
    var s0 := Start(Defaulted(w, [own]));
    var m := MutationState(other, None, false);
    var inside := Log(s0, Enter(0, 0));
    var p := Prepared(w, 0, m, inside);
    assert p.specs == [Some(w.entity.spec(other))];
    assert Inserted(w, p).trace == p.trace + [Batch(p.specs)];
    assert Mutate(w, 0, 1, m, inside) == Body(w, 0, m, inside);
    AnyBulkSave(w, [own]);
    assert Handed(w.hooks[0], w.entity.defaults(own)) == other by {
      assert w.hooks[0][1..] == [];
    }
    assert AllPass(w, s0.mutations, 0);
  }
}
