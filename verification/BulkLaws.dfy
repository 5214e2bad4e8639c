/** Bulk saves under hooks that just forward: nesting, one batch, all done or none, and the nodes that come back. */
module BulkLaws {
  import opened Prelude
  import opened AccountCreate
  import opened BulkCreate

  ghost predicate Transparent(w: World) {
    forall i, h :: 0 <= i < |w.hooks| && 0 <= h < |w.hooks[i]| ==> w.hooks[i][h] == Forward
  }

  ghost predicate Passes(w: World, ms: seq<MutationState>, i: nat)
    requires i < |ms|
  {
    w.entity.check(ms[i].data).None?
  }

  /** Every builder from `i` on passes its check. */
  ghost predicate AllPass(w: World, ms: seq<MutationState>, i: nat) {
    forall j :: i <= j < |ms| ==> Passes(w, ms, j)
  }

  /******* The shape of a transparent run *******/

  /** The events on the way in: the hooks of a builder from the outermost, its check, then the next builder. */
  ghost function Down(w: World, ms: seq<MutationState>, i: nat, h: nat): seq<Event>
    requires |ms| == |w.hooks| && i < |ms| && h <= |w.hooks[i]|
    decreases |ms| - i, |w.hooks[i]| - h
  {
    if h < |w.hooks[i]| then [Enter(i, h)] + Down(w, ms, i, h + 1)
    else if !Passes(w, ms, i) then [Checked(i, false)]
    else if i < |ms| - 1 then [Checked(i, true)] + Down(w, ms, i + 1, 0)
    else [Checked(i, true)]
  }

  /** What undoes an event on the way out: a hook returns; a checked builder is marked done if the batch succeeded. */
  ghost function Undo(e: Event, ok: bool): seq<Event> {
    match e
    case Enter(i, h) => [Exit(i, h)]
    case Checked(i, _) => if ok then [Done(i)] else []
    case _ => []
  }

  /** The events undone in exactly reverse order. */
  ghost function Mirror(es: seq<Event>, ok: bool): seq<Event> {
    if es == [] then [] else Mirror(es[1..], ok) + Undo(es[0], ok)
  }

  lemma MirrorCons(e: Event, es: seq<Event>, ok: bool)
    ensures Mirror([e] + es, ok) == Mirror(es, ok) + Undo(e, ok)
  {
    assert ([e] + es)[1..] == es;
  }

  lemma Wrap<T>(before: seq<T>, first: T, down: seq<T>, middle: seq<T>, up: seq<T>, last: seq<T>)
    ensures before + [first] + (down + middle + up) + last == before + (([first] + down) + middle + (up + last))
  {
  }

  /** The error of the first failing check from builder `i` on. */
  ghost function FirstFailure(w: World, ms: seq<MutationState>, i: nat): Option<SaveError>
    requires i <= |ms|
    decreases |ms| - i
  {
    if i == |ms| then None
    else
      var bad := w.entity.check(ms[i].data);
      if bad.Some? then Some(Validation(bad.value)) else FirstFailure(w, ms, i + 1)
  }

  lemma {:induction false} FirstFailureMeaning(w: World, ms: seq<MutationState>, i: nat)
    requires i <= |ms|
    ensures FirstFailure(w, ms, i).None? <==> AllPass(w, ms, i)
    decreases |ms| - i
  {
    if i < |ms| {
      FirstFailureMeaning(w, ms, i + 1);
      assert AllPass(w, ms, i) <==> Passes(w, ms, i) && AllPass(w, ms, i + 1);
    }
  }

  /** The specs in the slice once every builder from `i` on has filled its own. */
  ghost function AllSpecs(w: World, s: State, i: nat): seq<Option<AccountSpec>>
    requires |s.specs| == |s.mutations|
  {
    seq(|s.specs|, j requires 0 <= j < |s.specs| =>
      if j < i then s.specs[j] else Some(w.entity.spec(s.mutations[j].data)))
  }

  ghost predicate Succeeds(w: World, ms: seq<MutationState>, i: nat) {
    AllPass(w, ms, i) && w.outcome.Created?
  }

  /** The batch call, if every check passed. */
  ghost function Middle(w: World, i: nat, s: State): seq<Event>
    requires Shape(w, s)
  {
    if AllPass(w, s.mutations, i) then [Batch(AllSpecs(w, s, i))] else []
  }

  /** The trace a transparent run adds, from builder `i` and its hook `h` inwards. */
  ghost function Nested(w: World, i: nat, h: nat, s: State): seq<Event>
    requires Shape(w, s) && i < |w.hooks| && h <= |w.hooks[i]|
  {
    var d := Down(w, s.mutations, i, h);
    d + Middle(w, i, s) + Mirror(d, Succeeds(w, s.mutations, i))
  }

  ghost function ErrorOf(w: World, ms: seq<MutationState>, i: nat): Option<SaveError>
    requires i <= |ms|
  {
    if AllPass(w, ms, i) then BatchError(w.outcome) else FirstFailure(w, ms, i)
  }

  /** After a success every builder from `i` on is done and knows its identifier; after a failure none is touched. */
  ghost predicate Settled(w: World, i: nat, s: State, s': State)
    requires ValidWorld(w) && Shape(w, s) && Shape(w, s')
  {
    if Succeeds(w, s.mutations, i) then
      forall j :: i <= j < |w.hooks| ==>
        var node := Identified(w, w.entity.node(s.mutations[j].data), Some(w.outcome.ids), j);
        s'.nodes[j] == Some(node) && s'.mutations[j] == s.mutations[j].(id := Some(w.entity.getID(node)), done := true)
    else
      forall j :: i <= j < |w.hooks| ==> s'.mutations[j] == s.mutations[j]
  }

  ghost predicate Explained(w: World, i: nat, h: nat, s: State, r: (State, Option<SaveError>))
    requires ValidWorld(w) && Shape(w, s) && Shape(w, r.0) && i < |w.hooks| && h <= |w.hooks[i]|
  {
    && r.0.trace == s.trace + Nested(w, i, h, s)
    && r.1 == ErrorOf(w, s.mutations, i)
    && (r.0.created == if Succeeds(w, s.mutations, i) then Some(w.outcome.ids) else None)
    && Settled(w, i, s, r.0)
  }

  lemma {:induction false} NestedMutate(w: World, i: nat, h: nat, s: State)
    requires ValidWorld(w) && Shape(w, s) && Transparent(w) && i < |w.hooks| && h <= |w.hooks[i]|
    requires s.created.None?
    ensures Explained(w, i, h, s, Mutate(w, i, h, s.mutations[i], s))
    decreases |w.hooks| - i, 1, |w.hooks[i]| - h
  {
    if h == |w.hooks[i]| {
      NestedBody(w, i, s);
    } else {
      var inside := Log(s, Enter(i, h));
      NestedMutate(w, i, h + 1, inside);
      EnterStep(w, i, h, s);
      assert w.hooks[i][h] == Forward;
    }
  }

  /** One more transparent hook around the run. */
  lemma EnterStep(w: World, i: nat, h: nat, s: State)
    requires Shape(w, s) && i < |w.hooks| && h < |w.hooks[i]|
    ensures var inside := Log(s, Enter(i, h));
            inside.trace + Nested(w, i, h + 1, inside) + [Exit(i, h)] == s.trace + Nested(w, i, h, s)
  {
    var inside := Log(s, Enter(i, h));
    var d, ok := Down(w, s.mutations, i, h + 1), Succeeds(w, s.mutations, i);
    assert AllSpecs(w, inside, i) == AllSpecs(w, s, i);
    MirrorCons(Enter(i, h), d, ok);
    Wrap(s.trace, Enter(i, h), d, Middle(w, i, s), Mirror(d, ok), [Exit(i, h)]);
  }

  /** One more builder around the run. */
  lemma BodyStep(w: World, i: nat, s: State)
    requires Shape(w, s) && i < |w.hooks| - 1 && Passes(w, s.mutations, i)
    ensures var p := Prepared(w, i, s.mutations[i], s);
            var ok := Succeeds(w, s.mutations, i);
            && p.mutations == s.mutations
            && ok == Succeeds(w, p.mutations, i + 1)
            && p.trace + Nested(w, i + 1, 0, p) + (if ok then [Done(i)] else []) ==
               s.trace + Nested(w, i, |w.hooks[i]|, s)
  {
    var p := Prepared(w, i, s.mutations[i], s);
    var d, ok := Down(w, s.mutations, i + 1, 0), Succeeds(w, s.mutations, i);
    assert p.mutations == s.mutations;
    assert AllPass(w, s.mutations, i) <==> AllPass(w, s.mutations, i + 1);
    assert AllSpecs(w, p, i + 1) == AllSpecs(w, s, i);
    MirrorCons(Checked(i, true), d, ok);
    Wrap(s.trace, Checked(i, true), d, Middle(w, i, s), Mirror(d, ok), if ok then [Done(i)] else []);
  }

  lemma LastStep(w: World, i: nat, s: State)
    requires Shape(w, s) && i == |w.hooks| - 1 && Passes(w, s.mutations, i)
    ensures var p := Prepared(w, i, s.mutations[i], s);
            var ok := Succeeds(w, s.mutations, i);
            && p.mutations == s.mutations && AllPass(w, s.mutations, i)
            && p.trace + [Batch(p.specs)] + (if ok then [Done(i)] else []) == s.trace + Nested(w, i, |w.hooks[i]|, s)
  {
    var p := Prepared(w, i, s.mutations[i], s);
    assert p.mutations == s.mutations;
    assert p.specs == AllSpecs(w, s, i);
    MirrorCons(Checked(i, true), [], Succeeds(w, s.mutations, i));
    assert [Checked(i, true)] + [] == [Checked(i, true)];
  }

  lemma {:induction false} NestedBody(w: World, i: nat, s: State)
    requires ValidWorld(w) && Shape(w, s) && Transparent(w) && i < |w.hooks|
    requires s.created.None?
    ensures Explained(w, i, |w.hooks[i]|, s, Body(w, i, s.mutations[i], s))
    decreases |w.hooks| - i, 0, 0
  {
    var ms := s.mutations;
    FirstFailureMeaning(w, ms, i);
    if !Passes(w, ms, i) {
      MirrorCons(Checked(i, false), [], false);
      assert [Checked(i, false)] + [] == [Checked(i, false)];
    } else if i < |w.hooks| - 1 {
      var p := Prepared(w, i, ms[i], s);
      BodyStep(w, i, s);
      NestedMutate(w, i + 1, 0, p);
      assert AllPass(w, ms, i) <==> AllPass(w, ms, i + 1);
    } else {
      LastStep(w, i, s);
    }
  }

  /******* Counting batch calls *******/

  ghost function Batches(t: seq<Event>): nat {
    if t == [] then 0 else Batches(t[1..]) + if t[0].Batch? then 1 else 0
  }

  lemma {:induction false} BatchesConcat(a: seq<Event>, b: seq<Event>)
    ensures Batches(a + b) == Batches(a) + Batches(b)
  {
    if a == [] {
      assert a + b == b;
    } else {
      BatchesConcat(a[1..], b);
      assert (a + b)[1..] == a[1..] + b;
    }
  }

  lemma {:induction false} NoBatch(t: seq<Event>)
    requires forall e :: e in t ==> !e.Batch?
    ensures Batches(t) == 0
  {
    if t != [] {
      NoBatch(t[1..]);
    }
  }

  lemma {:induction false} DownHasNoBatch(w: World, ms: seq<MutationState>, i: nat, h: nat)
    requires |ms| == |w.hooks| && i < |ms| && h <= |w.hooks[i]|
    ensures forall e :: e in Down(w, ms, i, h) ==> !e.Batch?
    decreases |ms| - i, |w.hooks[i]| - h
  {
    if h < |w.hooks[i]| {
      DownHasNoBatch(w, ms, i, h + 1);
    } else if Passes(w, ms, i) && i < |ms| - 1 {
      DownHasNoBatch(w, ms, i + 1, 0);
    }
  }

  lemma {:induction false} MirrorHasNoBatch(es: seq<Event>, ok: bool)
    ensures forall e :: e in Mirror(es, ok) ==> !e.Batch?
  {
    if es != [] {
      MirrorHasNoBatch(es[1..], ok);
    }
  }

  /** A transparent run calls the batch once if every check passed, and not at all otherwise. */
  lemma NestedBatches(w: World, s: State)
    requires Shape(w, s) && |w.hooks| > 0
    ensures Batches(Nested(w, 0, 0, s)) == if AllPass(w, s.mutations, 0) then 1 else 0
    ensures AllPass(w, s.mutations, 0) ==> Batch(AllSpecs(w, s, 0)) in Nested(w, 0, 0, s)
  {
    var d, ok := Down(w, s.mutations, 0, 0), Succeeds(w, s.mutations, 0);
    DownHasNoBatch(w, s.mutations, 0, 0);
    MirrorHasNoBatch(d, ok);
    NoBatch(d);
    NoBatch(Mirror(d, ok));
    BatchesConcat(d, Middle(w, 0, s));
    BatchesConcat(d + Middle(w, 0, s), Mirror(d, ok));
    if AllPass(w, s.mutations, 0) {
      assert Batches([Batch(AllSpecs(w, s, 0))]) == 1;
      assert Nested(w, 0, 0, s)[|d|] == Batch(AllSpecs(w, s, 0));
    }
  }

  /******* The theorem for transparent hooks *******/

  /**
   With hooks that just forward, for any number of builders and hooks: the trace is the way in, the one batch call if
   every check passed, and the way in undone in exactly reverse order.  The batch carries the spec of every builder in
   its place.  After a success every mutation is done and every node comes back with its identifier in the builder's
   place; after a failed check or batch no mutation is done.
   */
  lemma BulkSaveNested(w: World, data: seq<AccountMutation>)
    requires ValidWorld(w) && Transparent(w) && |data| == |w.hooks| > 0
    ensures var s0 := Start(Defaulted(w, data));
            var (s, r) := Save(w, data, None);
            var ok := Succeeds(w, s0.mutations, 0);
            && s.trace == Nested(w, 0, 0, s0)
            && Batches(s.trace) == (if AllPass(w, s0.mutations, 0) then 1 else 0)
            && (r.Ok? <==> ok)
            && (r.Err? ==> Some(r.error) == ErrorOf(w, s0.mutations, 0))
            && (forall j :: 0 <= j < |data| ==> s.mutations[j].done == ok)
            && (ok ==> r == Ok(NodesOf(w, data)) && s.created == Some(w.outcome.ids)
                       && forall j :: 0 <= j < |data| ==>
                            s.mutations[j].id == Some(w.entity.getID(NodesOf(w, data)[j].value)))
            && (AllPass(w, s0.mutations, 0) ==> Batch(SpecsOf(w, data)) in s.trace)
  {
    var s0 := Start(Defaulted(w, data));
    NestedMutate(w, 0, 0, s0);
    FirstFailureMeaning(w, s0.mutations, 0);
    NestedBatches(w, s0);
    assert s0.trace + Nested(w, 0, 0, s0) == Nested(w, 0, 0, s0);
    assert AllSpecs(w, s0, 0) == SpecsOf(w, data);
    if Succeeds(w, s0.mutations, 0) {
      assert Save(w, data, None).0.nodes == NodesOf(w, data);
    }
  }

  /** Builder `j` is the first from `i` on whose check fails, and it fails with `v`. */
  ghost predicate FailsFirst(w: World, ms: seq<MutationState>, i: nat, j: int, v: ValidationError) {
    i <= j < |ms| && w.entity.check(ms[j].data) == Some(v) && forall k :: i <= k < j ==> Passes(w, ms, k)
  }

  lemma {:induction false} FirstFailureAt(w: World, ms: seq<MutationState>, i: nat, v: ValidationError)
    requires i <= |ms|
    ensures FirstFailure(w, ms, i) == Some(Validation(v)) <==> exists j :: FailsFirst(w, ms, i, j, v)
    decreases |ms| - i
  {
    if i < |ms| {
      FirstFailureAt(w, ms, i + 1, v);
      if w.entity.check(ms[i].data).Some? {
        assert !Passes(w, ms, i);
        if w.entity.check(ms[i].data) == Some(v) {
          assert FailsFirst(w, ms, i, i, v);
        }
        forall j ensures FailsFirst(w, ms, i, j, v) ==> j == i {
        }
      } else {
        assert Passes(w, ms, i);
        var next := i + 1;
        if j :| FailsFirst(w, ms, i, j, v) {
          assert FailsFirst(w, ms, next, j, v);
        }
        if j :| FailsFirst(w, ms, next, j, v) {
          assert FailsFirst(w, ms, i, j, v);
        }
      }
    }
  }

  /** The check of builder `j`, on its own mutation with its defaults. */
  ghost function Verdict(w: World, data: seq<AccountMutation>, j: nat): Option<ValidationError>
    requires j < |data|
  {
    w.entity.check(w.entity.defaults(data[j]))
  }

  ghost predicate AllValid(w: World, data: seq<AccountMutation>) {
    forall j :: 0 <= j < |data| ==> Verdict(w, data, j).None?
  }

  lemma PassIsValid(w: World, data: seq<AccountMutation>)
    ensures AllPass(w, Start(Defaulted(w, data)).mutations, 0) <==> AllValid(w, data)
    ensures forall j :: 0 <= j < |data| ==>
              w.entity.check(Start(Defaulted(w, data)).mutations[j].data) == Verdict(w, data, j)
  {
    var ms := Start(Defaulted(w, data)).mutations;
    forall j | 0 <= j < |data| ensures Passes(w, ms, j) <==> Verdict(w, data, j).None? {
    }
  }

  /**
   How a transparent save ends when every check passes: a constraint violation of the batch is wrapped as such, and any
   other failure is passed on.
   */
  lemma BulkSaveErrors(w: World, data: seq<AccountMutation>)
    requires ValidWorld(w) && Transparent(w) && |data| == |w.hooks| > 0
    ensures var r := Save(w, data, None).1;
            && (r.Ok? <==> AllValid(w, data) && w.outcome.Created?)
            && (forall msg :: r == Err(Constraint(msg)) <==> AllValid(w, data) && w.outcome == Failed(true, msg))
            && (forall msg :: r == Err(Driver(msg)) <==> AllValid(w, data) && w.outcome == Failed(false, msg))
            && (!AllValid(w, data) <==> r.Err? && r.error.Validation?)
  {
    var ms := Start(Defaulted(w, data)).mutations;
    BulkSaveNested(w, data);
    PassIsValid(w, data);
    FirstFailureMeaning(w, ms, 0);
    FailureIsValidation(w, ms, 0);
  }

  lemma {:induction false} FailureIsValidation(w: World, ms: seq<MutationState>, i: nat)
    requires i <= |ms|
    ensures FirstFailure(w, ms, i).Some? ==> FirstFailure(w, ms, i).value.Validation?
    decreases |ms| - i
  {
    if i < |ms| {
      FailureIsValidation(w, ms, i + 1);
    }
  }

  /** The validation error is that of the first builder whose check fails, in the order of the builders. */
  lemma BulkSaveValidation(w: World, data: seq<AccountMutation>, j: nat)
    requires ValidWorld(w) && Transparent(w) && |data| == |w.hooks| && j < |data|
    requires Verdict(w, data, j).Some? && forall k :: 0 <= k < j ==> Verdict(w, data, k).None?
    ensures Save(w, data, None).1 == Err(Validation(Verdict(w, data, j).value))
  {
    var ms, v := Start(Defaulted(w, data)).mutations, Verdict(w, data, j).value;
    BulkSaveErrors(w, data);
    BulkSaveNested(w, data);
    PassIsValid(w, data);
    assert FailsFirst(w, ms, 0, j, v);
    FirstFailureAt(w, ms, 0, v);
  }

  /** A builder that is already broken, and a save of nothing, do not run anything. */
  lemma BulkSaveTrivial(w: World, data: seq<AccountMutation>, err: Option<nat>)
    requires ValidWorld(w) && |data| == |w.hooks| && (err.Some? || data == [])
    ensures var (s, r) := Save(w, data, err);
            && s.trace == [] && s.created.None?
            && (err.Some? ==> r == Err(Builder(err.value))) && (err.None? ==> r == Ok([]))
  {
  }

  /** The node of every builder with the identifier the batch gave it, in its place. */
  ghost function NodesOf(w: World, data: seq<AccountMutation>): seq<Option<AccountNode>>
    requires w.outcome.Created? && |w.outcome.ids| == |data|
  {
    seq(|data|, j requires 0 <= j < |data| =>
      Some(Identified(w, w.entity.node(w.entity.defaults(data[j])), Some(w.outcome.ids), j)))
  }

  /** The spec of every builder, in its place. */
  ghost function SpecsOf(w: World, data: seq<AccountMutation>): seq<Option<AccountSpec>> {
    seq(|data|, j requires 0 <= j < |data| => Some(w.entity.spec(w.entity.defaults(data[j]))))
  }
}
