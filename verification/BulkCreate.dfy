/**
 AccountCreateBulk.Save: every builder's mutator runs its hooks around a body that validates, builds the insert and
 calls the mutator of the next builder from inside itself.  Only the innermost body talks to the database.

 Mutate and Body give the run as a function from state to state; class Run is the imperative form over the slices that
 Save fills.
 */
module BulkCreate {
  import opened Prelude
  import opened AccountSchema
  import opened AccountCreate
  import opened RowCodec

  type AccountNode = Node<Column>
  type AccountSpec = Spec<Column>

  datatype SaveError =
    | Builder(code: nat)
    | Validation(error: ValidationError)
    | FromHook(code: nat)
    | Constraint(message: string)
    | Driver(message: string)

  /** What BatchCreate does: all rows are inserted and the specs get their identifiers, or nothing happens. */
  datatype Outcome = Created(ids: seq<Option<int>>) | Failed(constraint: bool, message: string)

  /** How a hook treats the mutator it wraps.  Every kind calls it at most once. */
  datatype Hook =
    | Forward                      // calls next with the same mutation and returns what it returns
    | Replace(m: AccountMutation)  // calls next with another mutation
    | Veto(code: nat)              // returns an error instead of calling next
    | FailAfter(code: nat)         // calls next and then returns an error of its own
    | Swallow                      // calls next and hides its error
    | Skip                         // reports success without calling next

  /** An AccountMutation object: the pending data and the two fields Save writes. */
  datatype MutationState = MutationState(data: AccountMutation, id: Option<int>, done: bool)

  datatype Event =
    | Enter(builder: nat, hook: nat)
    | Exit(builder: nat, hook: nat)
    | Checked(builder: nat, ok: bool)
    | Batch(specs: seq<Option<AccountSpec>>)
    | Done(builder: nat)

  /** The generated members of the entity that Save relies on. */
  datatype Template = Template(
    defaults: AccountMutation -> AccountMutation,
    check: AccountMutation -> Option<ValidationError>,
    node: AccountMutation -> AccountNode,
    spec: AccountMutation -> AccountSpec,
    setID: (AccountNode, int) -> AccountNode,
    getID: AccountNode -> int)

  /** What stays fixed during one Save. */
  datatype World = World(entity: Template, hooks: seq<seq<Hook>>, outcome: Outcome)

  datatype State = State(
    mutations: seq<MutationState>,
    nodes: seq<Option<AccountNode>>,
    specs: seq<Option<AccountSpec>>,
    created: Option<seq<Option<int>>>,
    trace: seq<Event>)

  ghost predicate ValidWorld(w: World) {
    w.outcome.Created? ==> |w.outcome.ids| == |w.hooks|
  }

  ghost predicate Shape(w: World, s: State) {
    && |s.mutations| == |s.nodes| == |s.specs| == |w.hooks|
    && (s.created.Some? ==> |s.created.value| == |w.hooks|)
  }

  /** The builders before `i` are as they were. */
  ghost predicate Outside(i: nat, s: State, s': State)
    requires i <= |s.mutations| == |s.nodes| == |s.specs|
    requires |s'.mutations| == |s'.nodes| == |s'.specs| == |s.mutations|
  {
    forall j :: 0 <= j < i ==>
      s'.mutations[j] == s.mutations[j] && s'.nodes[j] == s.nodes[j] && s'.specs[j] == s.specs[j]
  }

  function Log(s: State, e: Event): State {
    s.(trace := s.trace + [e])
  }

  /** The node of a builder once the batch has returned. */
  function Identified(w: World, n: AccountNode, created: Option<seq<Option<int>>>, i: nat): AccountNode
    requires created.Some? ==> i < |created.value|
  {
    if created.Some? && created.value[i].Some? then w.entity.setID(n, created.value[i].value) else n
  }

  function BatchError(o: Outcome): Option<SaveError> {
    match o
    case Created(_) => None
    case Failed(constraint, message) => Some(if constraint then Constraint(message) else Driver(message))
  }

  /******* The run *******/

  /** The mutator of builder `i` from its `h`-th hook inwards. */
  function Mutate(w: World, i: nat, h: nat, m: MutationState, s: State): (r: (State, Option<SaveError>))
    requires ValidWorld(w) && Shape(w, s) && i < |w.hooks| && h <= |w.hooks[i]|
    ensures Shape(w, r.0) && Outside(i, s, r.0)
    decreases |w.hooks| - i, 1, |w.hooks[i]| - h
  {
    if h == |w.hooks[i]| then Body(w, i, m, s)
    else
      var inside := Log(s, Enter(i, h));
      match w.hooks[i][h]
      case Forward => var (s', e) := Mutate(w, i, h + 1, m, inside); (Log(s', Exit(i, h)), e)
      case Replace(d) =>
        var (s', e) := Mutate(w, i, h + 1, MutationState(d, None, false), inside); (Log(s', Exit(i, h)), e)
      case Veto(code) => (Log(inside, Exit(i, h)), Some(FromHook(code)))
      case FailAfter(code) => var (s', _) := Mutate(w, i, h + 1, m, inside); (Log(s', Exit(i, h)), Some(FromHook(code)))
      case Swallow => var (s', _) := Mutate(w, i, h + 1, m, inside); (Log(s', Exit(i, h)), None)
      case Skip => (Log(inside, Exit(i, h)), None)
  }

  /** The innermost function of builder `i`. */
  function Body(w: World, i: nat, m: MutationState, s: State): (r: (State, Option<SaveError>))
    requires ValidWorld(w) && Shape(w, s) && i < |w.hooks|
    ensures Shape(w, r.0) && Outside(i, s, r.0)
    decreases |w.hooks| - i, 0, 0
  {
    var bad := w.entity.check(s.mutations[i].data);
    if bad.Some? then (Log(s, Checked(i, false)), Some(Validation(bad.value)))
    else
      var s := Prepared(w, i, m, s);
      var (s, e) :=
        if i < |w.hooks| - 1 then Mutate(w, i + 1, 0, s.mutations[i + 1], s)
        else (Inserted(w, s), BatchError(w.outcome));
      if e.Some? then (s, e) else (Marked(w, i, s), None)
  }

  /** The builder takes the mutation it was handed and creates its node and spec. */
  function Prepared(w: World, i: nat, m: MutationState, s: State): State
    requires i < |s.mutations| == |s.nodes| == |s.specs|
  {
    Log(s.(mutations := s.mutations[i := m],
           nodes := s.nodes[i := Some(w.entity.node(m.data))],
           specs := s.specs[i := Some(w.entity.spec(m.data))]),
        Checked(i, true))
  }

  function Inserted(w: World, s: State): State {
    var s := Log(s, Batch(s.specs));
    if w.outcome.Created? then s.(created := Some(w.outcome.ids)) else s
  }

  /** The builder's node learns its identifier and its mutation is done. */
  function Marked(w: World, i: nat, s: State): State
    requires i < |s.mutations| == |s.nodes| && s.nodes[i].Some?
    requires s.created.Some? ==> i < |s.created.value|
  {
    var node := Identified(w, s.nodes[i].value, s.created, i);
    Log(s.(nodes := s.nodes[i := Some(node)],
           mutations := s.mutations[i := s.mutations[i].(id := Some(w.entity.getID(node)), done := true)]),
        Done(i))
  }

  function Start(data: seq<AccountMutation>): State {
    State(seq(|data|, i requires 0 <= i < |data| => MutationState(data[i], None, false)),
          seq(|data|, _ => None), seq(|data|, _ => None), None, [])
  }

  function Defaulted(w: World, data: seq<AccountMutation>): seq<AccountMutation> {
    seq(|data|, i requires 0 <= i < |data| => w.entity.defaults(data[i]))
  }

  /** The whole call: the final state and either the error or the nodes.  An error of defaults() is dropped. */
  function Save(w: World, data: seq<AccountMutation>, err: Option<nat>)
    : (State, Result<seq<Option<AccountNode>>, SaveError>)
    requires ValidWorld(w) && |data| == |w.hooks|
  {
    if err.Some? then (Start(data), Err(Builder(err.value)))
    else if |data| == 0 then (Start(data), Ok([]))
    else
      var s := Start(Defaulted(w, data));
      var (s, e) := Mutate(w, 0, 0, s.mutations[0], s);
      (s, if e.Some? then Err(e.value) else Ok(s.nodes))
  }

  /******* The run over the slices of Save *******/

  class Run {
    const w: World
    const mutations: array<MutationState>
    const nodes: array<Option<AccountNode>>
    const specs: array<Option<AccountSpec>>
    var created: Option<seq<Option<int>>>
    ghost var trace: seq<Event>

    ghost predicate Valid()
      reads this, mutations, nodes, specs
    {
      && ValidWorld(w)
      && Shape(w, View())
    }

    ghost function View(): State
      reads this, mutations, nodes, specs
    {
      State(mutations[..], nodes[..], specs[..], created, trace)
    }

    /** Allocates the slices and applies the defaults of every builder. */
    constructor (w: World, data: seq<AccountMutation>)
      requires ValidWorld(w) && |data| == |w.hooks|
      ensures Valid() && fresh(mutations) && fresh(nodes) && fresh(specs) && this.w == w
      ensures View() == Start(Defaulted(w, data))
    {
      this.w := w;
      mutations := new MutationState[|data|](
        i requires 0 <= i < |data| => MutationState(w.entity.defaults(data[i]), None, false));
      nodes := new Option<AccountNode>[|data|](_ => None);
      specs := new Option<AccountSpec>[|data|](_ => None);
      created, trace := None, [];
      new;
      assert mutations[..] == Start(Defaulted(w, data)).mutations;
      assert nodes[..] == Start(Defaulted(w, data)).nodes;
      assert specs[..] == Start(Defaulted(w, data)).specs;
    }

    method CallMutator(i: nat, h: nat, m: MutationState) returns (e: Option<SaveError>)
      requires Valid() && i < |w.hooks| && h <= |w.hooks[i]|
      modifies this, mutations, nodes, specs
      ensures Valid()
      ensures (View(), e) == Mutate(w, i, h, m, old(View()))
      decreases |w.hooks| - i, 1, |w.hooks[i]| - h
    {
      if h == |w.hooks[i]| {
        e := CallBody(i, m);
      } else {
        trace := trace + [Enter(i, h)];
        assert View() == Log(old(View()), Enter(i, h));
        match w.hooks[i][h] {
          case Forward => e := CallMutator(i, h + 1, m);
          case Replace(d) => e := CallMutator(i, h + 1, MutationState(d, None, false));
          case Veto(code) => e := Some(FromHook(code));
          case FailAfter(code) => var _ := CallMutator(i, h + 1, m); e := Some(FromHook(code));
          case Swallow => var _ := CallMutator(i, h + 1, m); e := None;
          case Skip => e := None;
        }
        trace := trace + [Exit(i, h)];
      }
    }

    method CallBody(i: nat, m: MutationState) returns (e: Option<SaveError>)
      requires Valid() && i < |w.hooks|
      modifies this, mutations, nodes, specs
      ensures Valid()
      ensures (View(), e) == Body(w, i, m, old(View()))
      decreases |w.hooks| - i, 0, 0
    {
      var bad := w.entity.check(mutations[i].data);
      if bad.Some? {
        trace := trace + [Checked(i, false)];
        return Some(Validation(bad.value));
      }
      mutations[i] := m;
      nodes[i], specs[i] := Some(w.entity.node(m.data)), Some(w.entity.spec(m.data));
      trace := trace + [Checked(i, true)];
      assert View() == Prepared(w, i, m, old(View()));
      if i < |w.hooks| - 1 {
        e := CallMutator(i + 1, 0, mutations[i + 1]);
      } else {
        e := CallBatch();
      }
      if e.Some? {
        return;
      }
      ghost var before := View();
      var node := nodes[i].value;
      if created.Some? && created.value[i].Some? {
        node := w.entity.setID(node, created.value[i].value);
      }
      nodes[i] := Some(node);
      mutations[i] := mutations[i].(id := Some(w.entity.getID(node)), done := true);
      trace := trace + [Done(i)];
      assert View() == Marked(w, i, before);
    }

    /** sqlgraph.BatchCreate on the collected specs. */
    method CallBatch() returns (e: Option<SaveError>)
      requires Valid()
      modifies this
      ensures Valid() && View() == Inserted(w, old(View())) && e == BatchError(w.outcome)
      ensures trace == old(trace) + [Batch(specs[..])]
      ensures w.outcome.Created? ==> e.None? && created == Some(w.outcome.ids)
      ensures w.outcome.Failed? ==> created == old(created)
      ensures w.outcome.Failed? && w.outcome.constraint ==> e == Some(Constraint(w.outcome.message))
      ensures w.outcome.Failed? && !w.outcome.constraint ==> e == Some(Driver(w.outcome.message))
    {
      trace := trace + [Batch(specs[..])];
      if w.outcome.Created? {
        created := Some(w.outcome.ids);
      }
      e := BatchError(w.outcome);
    }
  }

  /** AccountCreateBulk.Save on the slices computes exactly the run. */
  method SaveBulk(w: World, data: seq<AccountMutation>, err: Option<nat>)
    returns (r: Result<seq<Option<AccountNode>>, SaveError>)
    requires ValidWorld(w) && |data| == |w.hooks|
    ensures r == Save(w, data, err).1
  {
    if err.Some? {
      return Err(Builder(err.value));
    }
    var run := new Run(w, data);
    if |data| > 0 {
      var e := run.CallMutator(0, 0, run.mutations[0]);
      if e.Some? {
        return Err(e.value);
      }
      return Ok(run.nodes[..]);
    }
    return Ok([]);
  }
}
