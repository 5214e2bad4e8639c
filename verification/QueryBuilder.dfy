/**
 The query builder objects: a tree of builders linked by eager-load edges, each with its own context object and the
 backing arrays of its slices.  Tree gives the whole tree as a value; Repr is the set of objects it is made of.
 */
module QueryBuilder {
  import opened Prelude

  type Pred = nat
  type OrderOption = nat
  type Interceptor = nat
  type Modifier = nat
  type EdgeName = string

  datatype ContextView = ContextView(limit: Option<int>, offset: Option<int>, unique: Option<bool>, fields: seq<string>)

  datatype QueryTree = QueryTree(
    ctx: ContextView,
    order: seq<OrderOption>,
    inters: seq<Interceptor>,
    predicates: seq<Pred>,
    modifiers: seq<Modifier>,
    sql: Option<nat>,
    path: Option<nat>,
    edges: map<EdgeName, QueryTree>)

  /** What Clone promises to duplicate: everything but the modifiers, at every level. */
  function Unmodified(t: QueryTree): QueryTree {
    t.(modifiers := [], edges := map e | e in t.edges :: Unmodified(t.edges[e]))
  }

  const EMPTY := QueryTree(ContextView(None, None, None, []), [], [], [], [], None, None, map[])

  /** One builder call, possibly on the builder of an edge. */
  datatype Step =
    | Where(ps: seq<Pred>)
    | OrderBy(os: seq<OrderOption>)
    | Limit(n: int)
    | Offset(n: int)
    | Unique(b: bool)
    | Select(fields: seq<string>)
    | Lock(m: Modifier, postgres: bool)
    | With(edge: EdgeName)
    | At(edge: EdgeName, inner: Step)

  function ApplyTree(t: QueryTree, s: Step): QueryTree {
    match s
    case Where(ps) => t.(predicates := t.predicates + ps)
    case OrderBy(os) => t.(order := t.order + os)
    case Limit(n) => t.(ctx := t.ctx.(limit := Some(n)))
    case Offset(n) => t.(ctx := t.ctx.(offset := Some(n)))
    case Unique(b) => t.(ctx := t.ctx.(unique := Some(b)))
    case Select(fs) => t.(ctx := t.ctx.(fields := t.ctx.fields + fs))
    case Lock(m, postgres) =>
      t.(ctx := if postgres then t.ctx.(unique := Some(false)) else t.ctx, modifiers := t.modifiers + [m])
    case With(e) => t.(edges := t.edges[e := EMPTY])
    case At(e, inner) => if e in t.edges then t.(edges := t.edges[e := ApplyTree(t.edges[e], inner)]) else t
  }

  lemma ApplyWithEdge(t: QueryTree, e: EdgeName)
    ensures ApplyTree(t, With(e)) == t.(edges := t.edges[e := EMPTY])
  {
  }

  lemma ApplyAtEdge(t: QueryTree, e: EdgeName, inner: Step, sub: QueryTree)
    requires e in t.edges && sub == ApplyTree(t.edges[e], inner)
    ensures ApplyTree(t, At(e, inner)) == t.(edges := t.edges[e := sub])
  {
  }

  function ApplyTrees(t: QueryTree, ss: seq<Step>): QueryTree {
    if ss == [] then t else ApplyTree(ApplyTrees(t, Init(ss)), Last(ss))
  }

  /******* What builder calls add up to *******/

  /** The builder at the end of a path of edges. */
  ghost function Sub(t: QueryTree, path: seq<EdgeName>): Option<QueryTree>
    decreases |path|
  {
    if path == [] then Some(t) else if path[0] in t.edges then Sub(t.edges[path[0]], path[1..]) else None
  }

  /** A clone has the same builders in the same places, equal in everything but the modifiers, which are gone. */
  lemma {:induction false} UnmodifiedMeaning(t: QueryTree, path: seq<EdgeName>)
    ensures Sub(Unmodified(t), path).Some? <==> Sub(t, path).Some?
    ensures Sub(t, path).Some? ==>
              var a, b := Sub(t, path).value, Sub(Unmodified(t), path).value;
              && b.ctx == a.ctx && b.order == a.order && b.inters == a.inters && b.predicates == a.predicates
              && b.sql == a.sql && b.path == a.path && b.modifiers == [] && b.edges.Keys == a.edges.Keys
    decreases |path|
  {
    if path != [] && path[0] in t.edges {
      UnmodifiedMeaning(t.edges[path[0]], path[1..]);
    }
  }

  /** The last step of the kind, and none of it after. */
  ghost predicate LastOf(kind: Step -> bool, ss: seq<Step>, i: int) {
    0 <= i < |ss| && kind(ss[i]) && forall j :: i < j < |ss| ==> !kind(ss[j])
  }

  ghost predicate NoneOf(kind: Step -> bool, ss: seq<Step>) {
    forall i :: 0 <= i < |ss| ==> !kind(ss[i])
  }

  predicate SetsLimit(s: Step) { s.Limit? }

  predicate SetsOffset(s: Step) { s.Offset? }

  /** The calls that decide whether rows are distinct: Unique, and a lock on PostgreSQL. */
  predicate SetsUnique(s: Step) { s.Unique? || (s.Lock? && s.postgres) }

  /** The limit is that of the last Limit call, or what it was. */
  lemma {:induction false} LastLimitWins(t: QueryTree, ss: seq<Step>)
    ensures NoneOf(SetsLimit, ss) ==> ApplyTrees(t, ss).ctx.limit == t.ctx.limit
    ensures forall i :: LastOf(SetsLimit, ss, i) ==> ApplyTrees(t, ss).ctx.limit == Some(ss[i].n)
  {
    if ss != [] {
      LastLimitWins(t, Init(ss));
      LastSnoc(SetsLimit, ss);
      LastLimitWinsStep(ApplyTrees(t, Init(ss)), Last(ss));
      assert forall i :: LastOf(SetsLimit, Init(ss), i) ==> Init(ss)[i] == ss[i];
    }
  }

  lemma LastLimitWinsStep(t: QueryTree, s: Step)
    ensures ApplyTree(t, s).ctx.limit == if SetsLimit(s) then Some(s.n) else t.ctx.limit
  {
  }

  /** The same for the offset. */
  lemma {:induction false} LastOffsetWins(t: QueryTree, ss: seq<Step>)
    ensures NoneOf(SetsOffset, ss) ==> ApplyTrees(t, ss).ctx.offset == t.ctx.offset
    ensures forall i :: LastOf(SetsOffset, ss, i) ==> ApplyTrees(t, ss).ctx.offset == Some(ss[i].n)
  {
    if ss != [] {
      LastOffsetWins(t, Init(ss));
      LastSnoc(SetsOffset, ss);
      LastOffsetWinsStep(ApplyTrees(t, Init(ss)), Last(ss));
      assert forall i :: LastOf(SetsOffset, Init(ss), i) ==> Init(ss)[i] == ss[i];
    }
  }

  lemma LastOffsetWinsStep(t: QueryTree, s: Step)
    ensures ApplyTree(t, s).ctx.offset == if SetsOffset(s) then Some(s.n) else t.ctx.offset
  {
  }

  /** The same for uniqueness; a lock on PostgreSQL switches it off. */
  lemma {:induction false} LastUniqueWins(t: QueryTree, ss: seq<Step>)
    ensures NoneOf(SetsUnique, ss) ==> ApplyTrees(t, ss).ctx.unique == t.ctx.unique
    ensures forall i :: LastOf(SetsUnique, ss, i) ==> ApplyTrees(t, ss).ctx.unique == Some(ss[i].Unique? && ss[i].b)
  {
    if ss != [] {
      LastUniqueWins(t, Init(ss));
      LastSnoc(SetsUnique, ss);
      LastUniqueWinsStep(ApplyTrees(t, Init(ss)), Last(ss));
      assert forall i :: LastOf(SetsUnique, Init(ss), i) ==> Init(ss)[i] == ss[i];
    }
  }

  lemma LastUniqueWinsStep(t: QueryTree, s: Step)
    ensures ApplyTree(t, s).ctx.unique == if SetsUnique(s) then Some(s.Unique? && s.b) else t.ctx.unique
  {
  }

  lemma LastSnoc(kind: Step -> bool, ss: seq<Step>)
    requires ss != []
    ensures kind(Last(ss)) ==> !NoneOf(kind, ss) && forall i :: LastOf(kind, ss, i) <==> i == |ss| - 1
    ensures !kind(Last(ss)) ==>
              && (NoneOf(kind, ss) <==> NoneOf(kind, Init(ss)))
              && forall i :: LastOf(kind, ss, i) <==> LastOf(kind, Init(ss), i)
  {
    var init, n := Init(ss), |ss| - 1;
    assert forall i :: 0 <= i < n ==> ss[i] == init[i];
    assert ss[n] == Last(ss);
  }

  /** What the Where calls pass, one after the other; likewise for the other calls that append. */
  ghost function AllWhere(ss: seq<Step>): seq<Pred> {
    if ss == [] then [] else if Last(ss).Where? then AllWhere(Init(ss)) + Last(ss).ps else AllWhere(Init(ss))
  }

  ghost function AllOrder(ss: seq<Step>): seq<OrderOption> {
    if ss == [] then [] else if Last(ss).OrderBy? then AllOrder(Init(ss)) + Last(ss).os else AllOrder(Init(ss))
  }

  ghost function AllSelected(ss: seq<Step>): seq<string> {
    if ss == [] then [] else if Last(ss).Select? then AllSelected(Init(ss)) + Last(ss).fields else AllSelected(Init(ss))
  }

  ghost function AllLocks(ss: seq<Step>): seq<Modifier> {
    if ss == [] then [] else if Last(ss).Lock? then AllLocks(Init(ss)) + [Last(ss).m] else AllLocks(Init(ss))
  }

  /** Predicates, order, fields and modifiers pile up in the order of the calls. */
  lemma {:induction false} WheresAddUp(t: QueryTree, ss: seq<Step>)
    ensures ApplyTrees(t, ss).predicates == t.predicates + AllWhere(ss)
  {
    if ss != [] {
      WheresAddUp(t, Init(ss));
      CallAdds(ApplyTrees(t, Init(ss)), Last(ss));
    }
  }

  lemma {:induction false} OrdersAddUp(t: QueryTree, ss: seq<Step>)
    ensures ApplyTrees(t, ss).order == t.order + AllOrder(ss)
  {
    if ss != [] {
      OrdersAddUp(t, Init(ss));
      CallAdds(ApplyTrees(t, Init(ss)), Last(ss));
    }
  }

  lemma {:induction false} SelectsAddUp(t: QueryTree, ss: seq<Step>)
    ensures ApplyTrees(t, ss).ctx.fields == t.ctx.fields + AllSelected(ss)
  {
    if ss != [] {
      SelectsAddUp(t, Init(ss));
      CallAdds(ApplyTrees(t, Init(ss)), Last(ss));
    }
  }

  lemma {:induction false} LocksAddUp(t: QueryTree, ss: seq<Step>)
    ensures ApplyTrees(t, ss).modifiers == t.modifiers + AllLocks(ss)
  {
    if ss != [] {
      LocksAddUp(t, Init(ss));
      CallAdds(ApplyTrees(t, Init(ss)), Last(ss));
    }
  }

  /** What one call adds; interceptors, selector and path are never touched. */
  lemma CallAdds(t: QueryTree, s: Step)
    ensures var u := ApplyTree(t, s);
            && u.predicates == (if s.Where? then t.predicates + s.ps else t.predicates)
            && u.order == (if s.OrderBy? then t.order + s.os else t.order)
            && u.ctx.fields == (if s.Select? then t.ctx.fields + s.fields else t.ctx.fields)
            && u.modifiers == (if s.Lock? then t.modifiers + [s.m] else t.modifiers)
            && u.inters == t.inters && u.sql == t.sql && u.path == t.path
  {
  }

  class QueryContext {
    var limit: Option<int>
    var offset: Option<int>
    var unique: Option<bool>
    var fields: seq<string>

    constructor (v: ContextView)
      ensures View() == v
    {
      limit, offset, unique, fields := v.limit, v.offset, v.unique, v.fields;
    }

    function View(): ContextView
      reads this
    {
      ContextView(limit, offset, unique, fields)
    }
  }

  /******* Slices *******/

  /** A slice of opaque values: the first `len` elements of a backing array; the rest is spare capacity. */
  datatype Slice = Slice(data: array<nat>, len: nat)

  ghost predicate Sized(s: Slice) {
    s.len <= s.data.Length
  }

  ghost function Items(s: Slice): seq<nat>
    requires Sized(s)
    reads s.data
  {
    s.data[..s.len]
  }

  /** append: writes into the spare capacity if there is enough of it, and moves to a larger array otherwise. */
  method Append(s: Slice, xs: seq<nat>) returns (r: Slice)
    requires Sized(s)
    modifies s.data
    ensures Sized(r) && Items(r) == old(Items(s)) + xs
    ensures if s.len + |xs| <= s.data.Length then r.data == s.data else fresh(r.data)
  {
    var data := s.data;
    if s.len + |xs| > data.Length {
      var capacity: nat :| s.len + |xs| <= capacity;
      data := new nat[capacity];
      for i := 0 to s.len
        invariant data[..i] == s.data[..i] && s.data[..] == old(s.data[..])
      {
        data[i] := s.data[i];
      }
    }
    for i := 0 to |xs|
      invariant data[..s.len + i] == old(Items(s)) + xs[..i]
    {
      data[s.len + i] := xs[i];
      assert data[..s.len + i + 1] == data[..s.len + i] + [xs[i]];
    }
    assert xs[..|xs|] == xs;
    r := Slice(data, s.len + |xs|);
  }

  method EmptySlice() returns (r: Slice)
    ensures Sized(r) && fresh(r.data) && Items(r) == []
  {
    var data := new nat[0];
    r := Slice(data, 0);
  }

  /** Appending to an empty slice: the same items in a new array. */
  method CopySlice(s: Slice) returns (r: Slice)
    requires Sized(s)
    ensures Sized(r) && fresh(r.data) && Items(r) == Items(s)
  {
    var e := EmptySlice();
    var items := s.data[..s.len];
    r := Append(e, items);
  }

  /** Why Clone copies: two slices on one backing array with spare capacity overwrite each other's additions. */
  method SharedArrayOverwrites(s: Slice, x: nat, y: nat) returns (a: Slice, b: Slice)
    requires s.len < s.data.Length
    modifies s.data
    ensures Sized(a) && Sized(b) && Items(a) == Items(b) == old(Items(s)) + [y]
  {
    a := Append(s, [x]);
    assert s.data[..s.len] == Items(a)[..s.len];
    b := Append(s, [y]);
  }

  /** The slices that Clone duplicates.  It does not carry the modifiers over, so theirs cannot be shared. */
  datatype Slices = Slices(order: Slice, inters: Slice, predicates: Slice)

  ghost function Arrays(ss: Slices): set<object> {
    {ss.order.data, ss.inters.data, ss.predicates.data}
  }

  /** No two of them share a backing array. */
  ghost predicate Separate(ss: Slices) {
    && Sized(ss.order) && Sized(ss.inters) && Sized(ss.predicates)
    && ss.order.data != ss.inters.data && ss.order.data != ss.predicates.data && ss.inters.data != ss.predicates.data
  }

  /** What a builder with these parts says. */
  ghost function Saying(ctx: ContextView, ss: Slices, modifiers: seq<Modifier>, sql: Option<nat>, path: Option<nat>,
                        trees: map<EdgeName, QueryTree>): QueryTree
    requires Separate(ss)
    reads Arrays(ss)
  {
    QueryTree(ctx, Items(ss.order), Items(ss.inters), Items(ss.predicates), modifiers, sql, path, trees)
  }

  method CopySlices(ss: Slices) returns (r: Slices)
    requires Separate(ss)
    ensures Separate(r) && fresh(Arrays(r))
    ensures Items(r.order) == Items(ss.order) && Items(r.inters) == Items(ss.inters)
    ensures Items(r.predicates) == Items(ss.predicates)
  {
    var order := CopySlice(ss.order);
    var inters := CopySlice(ss.inters);
    var predicates := CopySlice(ss.predicates);
    r := Slices(order, inters, predicates);
  }

  method EmptySlices() returns (r: Slices)
    ensures Separate(r) && fresh(Arrays(r))
    ensures Items(r.order) == Items(r.inters) == Items(r.predicates) == []
  {
    var order := EmptySlice();
    var inters := EmptySlice();
    var predicates := EmptySlice();
    r := Slices(order, inters, predicates);
  }

  /******* Builders *******/

  /** The builders under the edges: separate trees made of `parts`, saying `trees`. */
  ghost predicate Forest(kids: map<EdgeName, Query>, parts: set<object>, trees: map<EdgeName, QueryTree>)
    reads parts
    decreases parts, 1
  {
    && kids.Keys == trees.Keys
    && (forall e {:trigger kids[e]} :: e in kids ==>
          kids[e] in parts && kids[e].Repr <= parts && kids[e].Valid() && kids[e].Tree == trees[e])
    && (forall e, f {:trigger kids[e], kids[f]} :: e in kids && f in kids && e != f ==> kids[e].Repr !! kids[f].Repr)
  }

  /** A tree apart from a forest joins it, in place of what the edge led to before. */
  lemma ForestPut(kids: map<EdgeName, Query>, parts: set<object>, trees: map<EdgeName, QueryTree>, e: EdgeName,
                  k: Query)
    requires Forest(kids, parts, trees) && k.Valid() && k.Repr !! parts
    ensures Forest(kids[e := k], parts + k.Repr, trees[e := k.Tree])
  {
  }

  lemma ForestWithout(kids: map<EdgeName, Query>, parts: set<object>, trees: map<EdgeName, QueryTree>, e: EdgeName)
    requires Forest(kids, parts, trees) && e in kids
    ensures Forest(kids - {e}, parts - kids[e].Repr, trees - {e})
  {
  }

  /** The tree of an edge returns to the forest it was taken from. */
  lemma ForestBack(kids: map<EdgeName, Query>, rest: set<object>, trees: map<EdgeName, QueryTree>, e: EdgeName)
    requires e in kids && kids.Keys == trees.Keys
    requires Forest(kids - {e}, rest, trees - {e}) && kids[e].Valid() && kids[e].Repr !! rest
    ensures Forest(kids, rest + kids[e].Repr, trees[e := kids[e].Tree])
  {
    var others, all, ts := kids - {e}, rest + kids[e].Repr, trees[e := kids[e].Tree];
    assert kids.Keys == ts.Keys;
    forall f | f in kids
      ensures kids[f] in all && kids[f].Repr <= all && kids[f].Valid() && kids[f].Tree == ts[f]
      ensures f != e ==> kids[f].Repr <= rest
    {
      assert f != e ==> kids[f] == others[f];
    }
    forall f, g | f in kids && g in kids && f != g ensures kids[f].Repr !! kids[g].Repr {
      assert f != e && g != e ==> kids[f] == others[f] && kids[g] == others[g];
    }
  }

  ghost function UnmodifiedSome(trees: map<EdgeName, QueryTree>, some: set<EdgeName>): map<EdgeName, QueryTree> {
    map e | e in trees && e in some :: Unmodified(trees[e])
  }

  lemma UnmodifiedSomePut(trees: map<EdgeName, QueryTree>, some: set<EdgeName>, e: EdgeName)
    requires e in trees && e in some
    ensures UnmodifiedSome(trees, some - {e})[e := Unmodified(trees[e])] == UnmodifiedSome(trees, some)
  {
  }

  lemma UnmodifiedAll(t: QueryTree)
    ensures UnmodifiedSome(t.edges, t.edges.Keys) == Unmodified(t).edges
  {
  }

  class Query {
    var ctx: QueryContext
    var order: Slice
    var inters: Slice
    var predicates: Slice
    var modifiers: seq<Modifier>
    var sql: Option<nat>
    var path: Option<nat>
    var edges: map<EdgeName, Query>
    ghost var Repr: set<object>
    ghost var Parts: set<object>
    ghost var Tree: QueryTree

    function Lists(): Slices
      reads this
    {
      Slices(order, inters, predicates)
    }

    /** The builder itself, its context and its backing arrays. */
    ghost function Own(): set<object>
      reads this
    {
      {this, ctx} + Arrays(Lists())
    }

    /** What this builder says, given what the builders under its edges say. */
    ghost function Says(trees: map<EdgeName, QueryTree>): QueryTree
      requires Separate(Lists())
      reads this, ctx, Arrays(Lists())
    {
      Saying(ctx.View(), Lists(), modifiers, sql, path, trees)
    }

    /** The objects form a tree, and Tree is what they say. */
    ghost predicate Valid()
      reads this, Repr
      ensures Valid() ==> this in Repr && ctx in Repr
      decreases Repr, 0
    {
      && Repr == Own() + Parts && Own() !! Parts
      && Separate(Lists())
      && Tree == Says(Tree.edges)
      && Forest(edges, Parts, Tree.edges)
    }

    constructor (c: QueryContext, ss: Slices, sql: Option<nat>, path: Option<nat>, edges: map<EdgeName, Query>,
                 ghost parts: set<object>, ghost trees: map<EdgeName, QueryTree>)
      requires Separate(ss) && Arrays(ss) !! parts && c !in parts && Forest(edges, parts, trees)
      ensures Valid() && Repr == {this, c} + Arrays(ss) + parts
      ensures Tree == Saying(c.View(), ss, [], sql, path, trees)
    {
      ctx := c;
      order, inters, predicates, modifiers := ss.order, ss.inters, ss.predicates, [];
      this.sql, this.path, this.edges := sql, path, edges;
      Repr, Parts := {this, c} + Arrays(ss) + parts, parts;
      Tree := Saying(c.View(), ss, [], sql, path, trees);
    }

    /** Copies the builders of the given edges into new, mutually separate trees. */
    method CloneEdges(todo: set<EdgeName>) returns (copies: map<EdgeName, Query>, ghost parts: set<object>)
      requires Valid() && todo <= edges.Keys
      ensures fresh(parts) && Forest(copies, parts, UnmodifiedSome(Tree.edges, todo))
      decreases Repr, 0, todo
    {
      if todo == {} {
        copies, parts := map[], {};
        return;
      }
      var e :| e in todo;
      copies, parts := CloneEdges(todo - {e});
      var copy := edges[e].Clone();
      assert copy.Repr !! parts;
      ForestPut(copies, parts, UnmodifiedSome(Tree.edges, todo - {e}), e, copy);
      UnmodifiedSomePut(Tree.edges, todo, e);
      copies, parts := copies[e := copy], parts + copy.Repr;
    }

    /** A tree of new objects that says the same, except that it has no modifiers. */
    method Clone() returns (c: Query)
      requires Valid()
      ensures c.Valid() && fresh(c.Repr) && c.Tree == Unmodified(Tree)
      decreases Repr, 1, edges.Keys
    {
      ghost var t := Tree;
      assert t == Says(t.edges) && edges.Keys == t.edges.Keys;
      var copies, parts := CloneEdges(edges.Keys);
      UnmodifiedAll(t);
      ghost var own;
      c, own := CloneHere(copies, parts, Unmodified(t).edges);
    }

    /** A new builder that says what this one says, except for the modifiers, over the given edges. */
    method CloneHere(copies: map<EdgeName, Query>, ghost parts: set<object>, ghost trees: map<EdgeName, QueryTree>)
      returns (c: Query, ghost own: set<object>)
      requires Separate(Lists()) && Forest(copies, parts, trees)
      ensures c.Valid() && fresh(own) && c.Repr == own + parts
      ensures c.Tree == Says(trees).(modifiers := [])
    {
      ghost var t := Says(trees);
      var cctx := new QueryContext(ctx.View());
      var lists := CopySlices(Lists());
      own := {cctx} + Arrays(lists);
      assert fresh(own) && unchanged(parts);
      assert Saying(cctx.View(), lists, [], sql, path, trees) == t.(modifiers := []);
      c := new Query(cctx, lists, sql, path, copies, parts, trees);
      own := own + {c};
    }

    /** The builder method on this builder, or on the builder of one of its edges. */
    method Apply(s: Step)
      requires Valid()
      modifies Repr
      ensures Valid() && fresh(Repr - old(Repr))
      ensures Tree == ApplyTree(old(Tree), s)
      decreases s, 0
    {
      match s {
        case With(e) => ApplyWith(e);
        case At(e, inner) => if e in edges { ApplyAt(e, inner); }
        case _ => ApplyHere(s);
      }
    }

    /** The methods that touch this builder, its context and its slices only. */
    method ApplyHere(s: Step)
      requires Valid() && !s.With? && !s.At?
      modifies Own()
      ensures Valid() && fresh(Repr - old(Repr))
      ensures Tree == ApplyTree(old(Tree), s)
    {
      ghost var parts, t := Parts, ApplyTree(Tree, s);
      ChangeFields(s);
      assert unchanged(parts);
      Absorb(parts, t.edges);
    }

    /** The assignments of those methods; the ghost view follows in `ApplyHere`. */
    method ChangeFields(s: Step)
      requires Separate(Lists()) && Tree == Says(Tree.edges)
      requires !s.With? && !s.At?
      modifies this`predicates, this`order, this`modifiers, ctx, order.data, predicates.data
      ensures Separate(Lists()) && fresh(Own() - old(Own()))
      ensures Says(Tree.edges) == ApplyTree(Tree, s)
    {
      match s {
        case Where(ps) => predicates := Append(predicates, ps);
        case OrderBy(os) => order := Append(order, os);
        case Limit(n) => ctx.limit := Some(n);
        case Offset(n) => ctx.offset := Some(n);
        case Unique(b) => ctx.unique := Some(b);
        case Select(fs) => ctx.fields := ctx.fields + fs;
        case Lock(m, postgres) =>
          if postgres {
            ctx.unique := Some(false);
          }
          modifiers := modifiers + [m];
      }
    }

    /** Brings the ghost fields up to date; the objects under the edges are not touched. */
    ghost method Absorb(parts: set<object>, trees: map<EdgeName, QueryTree>)
      requires Own() !! parts && Forest(edges, parts, trees) && Separate(Lists())
      modifies this`Repr, this`Parts, this`Tree
      ensures Valid() && Repr == Own() + parts && Tree == old(Says(trees))
    {
      Repr, Parts, Tree := Own() + parts, parts, Says(trees);
      assert unchanged(parts);
    }

    /** The edges are said apart from the rest. */
    lemma SaysEdges(trees: map<EdgeName, QueryTree>, others: map<EdgeName, QueryTree>)
      requires Separate(Lists())
      ensures Says(trees) == Says(others).(edges := trees)
    {
    }

    /** WithX: a new, empty builder for the edge. */
    method ApplyWith(e: EdgeName)
      requires Valid()
      modifies this
      ensures Valid() && fresh(Repr - old(Repr))
      ensures Tree == ApplyTree(old(Tree), With(e))
    {
      ApplyWithEdge(Tree, e);
      var q := NewQuery();
      assert unchanged(Repr);
      SetEdge(e, q);
    }

    /** Puts a builder under the edge, in place of what was there. */
    method SetEdge(e: EdgeName, q: Query)
      requires Valid() && q.Valid() && q.Repr !! Repr
      modifies this
      ensures Valid() && Repr <= old(Repr) + q.Repr
      ensures Tree == old(Tree).(edges := old(Tree).edges[e := q.Tree])
    {
      ghost var parts, trees := Parts + q.Repr, Tree.edges[e := q.Tree];
      ForestPut(edges, Parts, Tree.edges, e, q);
      SaysEdges(trees, Tree.edges);
      edges := edges[e := q];
      assert unchanged(parts);
      Absorb(parts, trees);
    }

    method ApplyAt(e: EdgeName, inner: Step)
      requires Valid() && e in edges
      modifies Repr
      ensures Valid() && fresh(Repr - old(Repr))
      ensures Tree == ApplyTree(old(Tree), At(e, inner))
      decreases inner, 2
    {
      ghost var t, own, was := Tree, Own(), Parts;
      assert Repr == own + was && t.edges.Keys == edges.Keys;
      ghost var sub := ApplyTree(t.edges[e], inner);
      ApplyAtEdge(t, e, inner, sub);
      ghost var parts := ApplyKid(e, inner, sub);
      ghost var trees := t.edges[e := sub];
      SaysEdges(trees, t.edges);
      Absorb(parts, trees);
      assert Repr == own + parts;
    }

    /** Applies the step to the builder of one edge; the others stay as they are. */
    method ApplyKid(e: EdgeName, inner: Step, ghost sub: QueryTree) returns (ghost parts: set<object>)
      requires Valid() && e in edges && e in Tree.edges && sub == ApplyTree(Tree.edges[e], inner)
      modifies edges[e].Repr
      ensures unchanged(this) && Separate(Lists()) && Says(Tree.edges) == Tree
      ensures fresh(parts - Parts) && Own() !! parts
      ensures Forest(edges, parts, Tree.edges[e := sub])
      decreases inner, 1
    {
      ghost var all, kids, ts := Parts, edges, Tree.edges;
      var k := edges[e];
      ghost var rest := all - k.Repr;
      ForestWithout(kids, all, ts, e);
      k.Apply(inner);
      ForestBack(kids, rest, ts, e);
      parts := rest + k.Repr;
    }

    method ApplyAll(ss: seq<Step>)
      requires Valid()
      modifies Repr
      ensures Valid() && fresh(Repr - old(Repr))
      ensures Tree == ApplyTrees(old(Tree), ss)
    {
      for i := 0 to |ss|
        invariant Valid() && fresh(Repr - old(Repr))
        invariant Tree == ApplyTrees(old(Tree), ss[..i])
      {
        assert Init(ss[..i + 1]) == ss[..i];
        Apply(ss[i]);
      }
      assert ss[..|ss|] == ss;
    }
  }

  /** The builder a client's Query() hands out. */
  method NewQuery() returns (q: Query)
    ensures q.Valid() && fresh(q.Repr) && q.Tree == EMPTY
  {
    var c := new QueryContext(EMPTY.ctx);
    var lists := EmptySlices();
    ghost var own := {c} + Arrays(lists);
    assert fresh(own) && Saying(c.View(), lists, [], None, None, map[]) == EMPTY;
    q := new Query(c, lists, None, None, map[], {}, map[]);
    assert q.Repr == own + {q};
  }

  /**
   Preparing a common builder and using it differently: after a clone, any calls on the original and any calls on the
   clone, at any depth, never show in the other one.
   */
  method CloneAndDiverge(q: Query, left: seq<Step>, right: seq<Step>) returns (c: Query)
    requires q.Valid()
    modifies q.Repr
    ensures q.Valid() && c.Valid() && q.Repr !! c.Repr && fresh(c.Repr)
    ensures q.Tree == ApplyTrees(old(q.Tree), left)
    ensures c.Tree == ApplyTrees(Unmodified(old(q.Tree)), right)
  {
    c := q.Clone();
    ghost var t := c.Tree;
    assert q.Repr !! c.Repr;
    q.ApplyAll(left);
    assert q.Repr !! c.Repr && c.Valid() && c.Tree == t;
    ghost var u := q.Tree;
    c.ApplyAll(right);
    assert q.Valid() && q.Tree == u;
  }
}
