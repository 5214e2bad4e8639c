/** Bulk saves under hooks of every kind: when the batch is called, what it carries, and who was marked done. */
module BulkHooks {
  import opened Prelude
  import opened AccountCreate
  import opened BulkCreate
  import opened BulkLaws

  /** A hook that does not call the mutator it wraps. */
  predicate Blocks(k: Hook) { k.Veto? || k.Skip? }

  /** A hook that reports success whatever happened inside. */
  predicate Masks(k: Hook) { k.Swallow? || k.Skip? }

  /** A hook whose own verdict replaces that of the mutator it wraps. */
  predicate Opinionated(k: Hook) { !k.Forward? && !k.Replace? }

  /** The outermost hook that decides what the stack returns. */
  ghost function FirstOpinion(hs: seq<Hook>): Option<Hook> {
    if hs == [] then None else if Opinionated(hs[0]) then Some(hs[0]) else FirstOpinion(hs[1..])
  }

  ghost predicate StackMasks(hs: seq<Hook>) {
    FirstOpinion(hs).Some? && Masks(FirstOpinion(hs).value)
  }

  /** The mutation that gets through a stack of hooks. */
  ghost function Handed(hs: seq<Hook>, data: AccountMutation): AccountMutation {
    if hs == [] then data else Handed(hs[1..], if hs[0].Replace? then hs[0].m else data)
  }

  /** Nothing in the stacks before builder `i` keeps the chain from getting there. */
  ghost predicate Open(hooks: seq<seq<Hook>>, i: nat) {
    forall j, h :: 0 <= j < i && j < |hooks| && 0 <= h < |hooks[j]| ==> !Blocks(hooks[j][h])
  }

  /** Nothing from hook `h` of builder `i` inwards keeps the chain from reaching the batch. */
  ghost predicate Clear(hooks: seq<seq<Hook>>, i: nat, h: nat)
    requires i < |hooks|
  {
    && (forall g :: h <= g < |hooks[i]| ==> !Blocks(hooks[i][g]))
    && (forall j, g :: i < j < |hooks| && 0 <= g < |hooks[j]| ==> !Blocks(hooks[j][g]))
  }

  /** The builders after `i` cannot report a success that did not happen, as far as the chain can reach them. */
  ghost predicate Honest(hooks: seq<seq<Hook>>, i: nat) {
    forall k :: i < k < |hooks| && Open(hooks, k) ==> !StackMasks(hooks[k])
  }

  /** The spec the batch carries for builder `j` when the chain stands before hook `h` of builder `i`. */
  ghost function Carried(w: World, i: nat, h: nat, m: MutationState, s: State, j: nat): Option<AccountSpec>
    requires Shape(w, s) && i < |w.hooks| && h <= |w.hooks[i]| && j < |w.hooks|
  {
    if j < i then s.specs[j]
    else if j == i then Some(w.entity.spec(Handed(w.hooks[i][h..], m.data)))
    else Some(w.entity.spec(Handed(w.hooks[j], s.mutations[j].data)))
  }

  /** One batch call was added exactly when all checks pass and no hook blocks, and it alone creates anything. */
  ghost predicate Counted(w: World, i: nat, h: nat, s: State, t: seq<Event>, s': State)
    requires i < |w.hooks|
  {
    && s'.trace == s.trace + t
    && Batches(t) == (if AllPass(w, s.mutations, i) && Clear(w.hooks, i, h) then 1 else 0)
    && s'.created == (if Batches(t) == 1 && w.outcome.Created? then Some(w.outcome.ids) else None)
  }

  /** The batch call carries the spec of whatever mutation got through each stack, in the builder's place. */
  ghost predicate Delivers(w: World, i: nat, h: nat, m: MutationState, s: State, t: seq<Event>)
    requires Shape(w, s) && i < |w.hooks| && h <= |w.hooks[i]|
  {
    forall specs :: Batch(specs) in t ==>
      |specs| == |w.hooks| && forall j :: 0 <= j < |w.hooks| ==> specs[j] == Carried(w, i, h, m, s, j)
  }

  /** A done mutation was marked in the added events. */
  ghost predicate Shown(s': State, t: seq<Event>) {
    forall j :: 0 <= j < |s'.mutations| && s'.mutations[j].done ==> Done(j) in t
  }

  ghost predicate Undone(s: State) {
    forall j :: 0 <= j < |s.mutations| ==> !s.mutations[j].done
  }

  lemma CountAround(w: World, i: nat, h: nat, h': nat, s: State, first: Event, t: seq<Event>, last: seq<Event>,
                    s': State)
    requires !first.Batch? && forall e :: e in last ==> !e.Batch?
    requires i < |w.hooks| && (Clear(w.hooks, i, h) <==> Clear(w.hooks, i, h'))
    requires Counted(w, i, h', Log(s, first), t, s')
    ensures Counted(w, i, h, s, [first] + t + last, s'.(trace := s'.trace + last))
  {
    BatchesConcat([first] + t, last);
    BatchesConcat([first], t);
    NoBatch([first]);
    NoBatch(last);
    assert s.trace + [first] + t + last == s.trace + ([first] + t + last);
  }

  lemma DeliverAround(w: World, i: nat, h: nat, m: MutationState, s: State, t: seq<Event>)
    requires Shape(w, s) && i < |w.hooks| && h < |w.hooks[i]|
    requires var k := w.hooks[i][h];
             Delivers(w, i, h + 1, if k.Replace? then MutationState(k.m, None, false) else m, Log(s, Enter(i, h)), t)
    ensures Delivers(w, i, h, m, s, [Enter(i, h)] + t + [Exit(i, h)])
  {
    assert w.hooks[i][h..][1..] == w.hooks[i][h + 1..];
    var k := w.hooks[i][h];
    var m' := if k.Replace? then MutationState(k.m, None, false) else m;
    forall j | 0 <= j < |w.hooks|
      ensures Carried(w, i, h + 1, m', Log(s, Enter(i, h)), j) == Carried(w, i, h, m, s, j)
    {
    }
  }

  lemma DeliverBody(w: World, i: nat, m: MutationState, s: State, t: seq<Event>, last: seq<Event>)
    requires Shape(w, s) && i < |w.hooks| && forall e :: e in last ==> !e.Batch?
    requires var p := Prepared(w, i, m, s);
             if i < |w.hooks| - 1 then Delivers(w, i + 1, 0, p.mutations[i + 1], p, t) else t == [Batch(p.specs)]
    ensures Delivers(w, i, |w.hooks[i]|, m, s, [Checked(i, true)] + t + last)
  {
    assert w.hooks[i][|w.hooks[i]|..] == [];
    var p := Prepared(w, i, m, s);
    if i < |w.hooks| - 1 {
      assert w.hooks[i + 1][0..] == w.hooks[i + 1];
      forall j | 0 <= j < |w.hooks|
        ensures Carried(w, i + 1, 0, p.mutations[i + 1], p, j) == Carried(w, i, |w.hooks[i]|, m, s, j)
      {
      }
    }
  }

  lemma {:induction false} AnyMutate(w: World, i: nat, h: nat, m: MutationState, s: State) returns (t: seq<Event>)
    requires ValidWorld(w) && Shape(w, s) && i < |w.hooks| && h <= |w.hooks[i]|
    requires s.created.None? && Undone(s) && !m.done
    ensures var s' := Mutate(w, i, h, m, s).0;
            Counted(w, i, h, s, t, s') && Delivers(w, i, h, m, s, t) && Shown(s', t)
    decreases |w.hooks| - i, 1, |w.hooks[i]| - h
  {
    if h == |w.hooks[i]| {
      t := AnyBody(w, i, m, s);
    } else {
      var inside := Log(s, Enter(i, h));
      var k := w.hooks[i][h];
      if Blocks(k) {
        t := [Enter(i, h), Exit(i, h)];
        NoBatch(t);
      } else {
        var m' := if k.Replace? then MutationState(k.m, None, false) else m;
        var t' := AnyMutate(w, i, h + 1, m', inside);
        t := [Enter(i, h)] + t' + [Exit(i, h)];
        CountAround(w, i, h, h + 1, s, Enter(i, h), t', [Exit(i, h)], Mutate(w, i, h + 1, m', inside).0);
        DeliverAround(w, i, h, m, s, t');
      }
    }
  }

  lemma {:induction false} AnyBody(w: World, i: nat, m: MutationState, s: State) returns (t: seq<Event>)
    requires ValidWorld(w) && Shape(w, s) && i < |w.hooks|
    requires s.created.None? && Undone(s) && !m.done
    ensures var s' := Body(w, i, m, s).0;
            Counted(w, i, |w.hooks[i]|, s, t, s') && Delivers(w, i, |w.hooks[i]|, m, s, t) && Shown(s', t)
    decreases |w.hooks| - i, 0, 0
  {
    if !Passes(w, s.mutations, i) {
      t := [Checked(i, false)];
      NoBatch(t);
    } else {
      var p := Prepared(w, i, m, s);
      var t', s', e := AnyRest(w, i, m, s);
      var last := if e.None? then [Done(i)] else [];
      t := [Checked(i, true)] + t' + last;
      CountAround(w, i, |w.hooks[i]|, |w.hooks[i]|, s, Checked(i, true), t', last, s');
      DeliverBody(w, i, m, s, t', last);
    }
  }

  /** Behind a builder that passed, the checks and hooks to come decide. */
  lemma SameChances(w: World, i: nat, m: MutationState, s: State)
    requires Shape(w, s) && i < |w.hooks| - 1 && Passes(w, s.mutations, i)
    ensures Clear(w.hooks, i, |w.hooks[i]|) <==> Clear(w.hooks, i + 1, 0)
    ensures AllPass(w, Prepared(w, i, m, s).mutations, i + 1) <==> AllPass(w, s.mutations, i)
  {
    var p := Prepared(w, i, m, s);
    assert forall j :: i < j < |w.hooks| ==> p.mutations[j] == s.mutations[j];
    assert forall j :: i < j < |w.hooks| ==> (Passes(w, p.mutations, j) <==> Passes(w, s.mutations, j));
  }

  /** What builder `i` finds when the inner call returns. */
  lemma {:induction false} AnyRest(w: World, i: nat, m: MutationState, s: State)
    returns (t: seq<Event>, s': State, e: Option<SaveError>)
    requires ValidWorld(w) && Shape(w, s) && i < |w.hooks| && Passes(w, s.mutations, i)
    requires s.created.None? && Undone(s) && !m.done
    ensures var p := Prepared(w, i, m, s);
            && (s', e) == (if i < |w.hooks| - 1 then Mutate(w, i + 1, 0, p.mutations[i + 1], p)
                           else (Inserted(w, p), BatchError(w.outcome)))
            && Shape(w, s') && Outside(i + 1, p, s')
            && Counted(w, i, |w.hooks[i]|, Log(s, Checked(i, true)), t, s')
            && (if i < |w.hooks| - 1 then Delivers(w, i + 1, 0, p.mutations[i + 1], p, t) else t == [Batch(p.specs)])
            && Shown(s', t)
    decreases |w.hooks| - i - 1, 2, 0
  {
    var p := Prepared(w, i, m, s);
    if i < |w.hooks| - 1 {
      t := AnyMutate(w, i + 1, 0, p.mutations[i + 1], p);
      var inner := Mutate(w, i + 1, 0, p.mutations[i + 1], p);
      s', e := inner.0, inner.1;
      SameChances(w, i, m, s);
    } else {
      t, s', e := [Batch(p.specs)], Inserted(w, p), BatchError(w.outcome);
      assert Batches(t) == 1;
    }
  }

  /** Whatever the hooks do: exactly when the one batch call happens, and what it carries. */
  lemma AnyBulkSave(w: World, data: seq<AccountMutation>)
    requires ValidWorld(w) && |data| == |w.hooks|
    ensures var s0 := Start(Defaulted(w, data));
            var s := Save(w, data, None).0;
            && Batches(s.trace) <= 1
            && (Batches(s.trace) == 1 <==> |data| > 0 && AllPass(w, s0.mutations, 0) && Open(w.hooks, |w.hooks|))
            && (s.created.Some? <==> Batches(s.trace) == 1 && w.outcome.Created?)
            && (forall specs :: Batch(specs) in s.trace ==>
                  |specs| == |data| && forall j :: 0 <= j < |data| ==>
                    specs[j] == Some(w.entity.spec(Handed(w.hooks[j], w.entity.defaults(data[j])))))
  {
    if |data| > 0 {
      var s0 := Start(Defaulted(w, data));
      var t := AnyMutate(w, 0, 0, s0.mutations[0], s0);
      assert s0.trace + t == t;
      assert w.hooks[0][0..] == w.hooks[0];
      assert Clear(w.hooks, 0, 0) <==> Open(w.hooks, |w.hooks|);
    }
  }
}
