/** The generic laws at the account entity. */
module AccountEntity {
  import opened Prelude
  import opened EntSchema
  import opened AccountSchema
  import opened AccountCreate
  import opened RowCodec
  import opened BulkCreate
  import opened BulkLaws
  import opened BulkHooks

  function IdOf(n: AccountNode): int {
    if ID in n.fields && n.fields[ID].IntValue? then n.fields[ID].i else 0
  }

  function AccountTemplate(rt: Runtime): Template {
    Template((m: AccountMutation) => Defaults(rt, m).0,
             (m: AccountMutation) => Check(rt, m),
             (m: AccountMutation) => CreateSpec(m).0,
             (m: AccountMutation) => CreateSpec(m).1,
             (n: AccountNode, id: int) => Put(n, ID, IntValue(id)),
             (n: AccountNode) => IdOf(n))
  }

  /**
   Save drops the error of defaults().  If it fails for any builder, no batch call is made, nothing is created, and the
   builder's check is what stops the chain.
   */
  lemma FailedDefaultsStopTheBatch(rt: Runtime, hooks: seq<seq<Hook>>, outcome: Outcome, data: seq<AccountMutation>,
                                   j: nat)
    requires ValidRuntime(rt) && |data| == |hooks| && j < |data| && Defaults(rt, data[j]).1.Some?
    requires ValidWorld(World(AccountTemplate(rt), hooks, outcome))
    ensures var s := Save(World(AccountTemplate(rt), hooks, outcome), data, None).0;
            Batches(s.trace) == 0 && s.created.None?
    ensures Check(rt, Defaults(rt, data[j]).0).Some?
  {
    var w := World(AccountTemplate(rt), hooks, outcome);
    var s0 := Start(Defaulted(w, data));
    AnyBulkSave(w, data);
    DroppedDefaultsErrorIsCaught(rt, data[j]);
    assert !Passes(w, s0.mutations, j);
  }

  /** Default values have the type of their column. */
  ghost predicate TypedRuntime(rt: Runtime) {
    forall c :: c in DEFAULTED && rt.default(c).Some? ==> HasKind(rt.default(c).value, ACCOUNT[c].kind)
  }

  /** The many-to-one edges of an account are its proxy and its parent. */
  ghost predicate AccountEdgesOnly(m: AccountMutation) {
    forall c :: c in m.edges ==> c == ProxyID || c == ParentAccountID
  }

  lemma DefaultedColumnsAreFields(c: Column)
    requires c in DEFAULTED
    ensures c in ACCOUNT && c != ID && c != ProxyID && c != ParentAccountID
  {
  }

  lemma {:induction false} DefaultsKeepTypes(rt: Runtime, m: AccountMutation, cs: seq<Column>)
    requires TypedRuntime(rt) && WellTyped(ACCOUNT, ID, m) && AccountEdgesOnly(m)
    requires forall c :: c in cs ==> c in DEFAULTED
    ensures var m' := DefaultsOver(rt, m, cs).0;
            WellTyped(ACCOUNT, ID, m') && AccountEdgesOnly(m')
  {
    if cs != [] {
      DefaultsKeepTypes(rt, m, Init(cs));
      DefaultedColumnsAreFields(Last(cs));
    }
  }

  lemma AccountReadsBack(codec: Codec<Column>, m: AccountMutation, id: int, columns: seq<Column>, c: Column)
    requires codec.schema == ACCOUNT && codec.id == ID && RoundTrips(codec) && WellTyped(ACCOUNT, ID, m)
    requires NoDuplicates(columns) && (forall d: Column :: d in columns <==> !d.Unknown?)
    requires !c.Unknown?
    ensures var (read, err) := ReadBack(codec, CreateSpec(m).1, id, columns);
            err.None? && Field(ACCOUNT, read, c) == Field(ACCOUNT, Put(CreateSpec(m).0, ID, IntValue(id)), c)
  {
    AccountSchemaIsKnown();
    CreateThenRead(codec, m, id, columns, c);
  }

  /** Reading the row that a spec describes into a fresh node. */
  ghost function ReadBack(codec: Codec<Column>, spec: AccountSpec, id: int, columns: seq<Column>)
    : (AccountNode, Option<AssignError<Column>>)
  {
    RowCodec.AssignAll(codec, FreshNode(), columns, Scanned(codec.schema, columns, RowOf(codec, spec, id)))
  }

  /** The spec and the node that Save makes of one builder. */
  lemma SavedSpecAndNode(rt: Runtime, w: World, data: seq<AccountMutation>, j: nat)
    requires w.entity == AccountTemplate(rt) && w.outcome.Created? && |w.outcome.ids| == |data|
    requires j < |data| && w.outcome.ids[j].Some?
    ensures var (node, spec) := CreateSpec(Defaults(rt, data[j]).0);
            && SpecsOf(w, data)[j] == Some(spec)
            && NodesOf(w, data)[j] == Some(Put(node, ID, IntValue(w.outcome.ids[j].value)))
  {
  }

  /** What a builder asks for in a column: what it set itself, else the default, else nothing. */
  ghost function Expected(rt: Runtime, m: AccountMutation, c: Column): Value {
    if c in m.edges then IntValue(m.edges[c])
    else if c in m.fields then m.fields[c]
    else if c in DEFAULTED && rt.default(c).Some? then rt.default(c).value
    else Zero(ACCOUNT, c)
  }

  /** After successful defaults the mutation asks for exactly that. */
  lemma DefaultedAsks(rt: Runtime, m: AccountMutation, c: Column)
    requires AccountEdgesOnly(m) && Defaults(rt, m).1.None?
    ensures var asked := Asked(Defaults(rt, m).0, c);
            Expected(rt, m, c) == if asked.Some? then asked.value else Zero(ACCOUNT, c)
  {
    DefaultsMeaning(rt, m, DEFAULTED);
  }

  /** Reading the row of a spec under identifier `id` gives node and builder what they should have, in every column. */
  ghost predicate ReadsBack(rt: Runtime, m: AccountMutation, codec: Codec<Column>, columns: seq<Column>,
                            spec: Option<AccountSpec>, id: int, node: Option<AccountNode>)
  {
    && spec.Some? && node.Some?
    && var (read, err) := ReadBack(codec, spec.value, id, columns);
       && err.None?
       && (forall c: Column :: !c.Unknown? ==> Field(ACCOUNT, read, c) == Field(ACCOUNT, node.value, c))
       && (forall c: Column :: !c.Unknown? ==>
             Field(ACCOUNT, read, c) == if c == ID then IntValue(id) else Expected(rt, m, c))
  }

  lemma AccountCodecIsValid(codec: Codec<Column>)
    requires codec.schema == ACCOUNT && codec.id == ID
    ensures ValidCodec(codec)
  {
    AccountSchemaIsKnown();
  }

  /** The created node holds what the builder asked for. */
  lemma CreatedAsExpected(rt: Runtime, m: AccountMutation, codec: Codec<Column>, id: int, c: Column)
    requires TypedRuntime(rt) && WellTyped(ACCOUNT, ID, m) && AccountEdgesOnly(m) && Defaults(rt, m).1.None?
    requires codec.schema == ACCOUNT && codec.id == ID && RoundTrips(codec)
    ensures Field(ACCOUNT, Put(CreateSpec(Defaults(rt, m).0).0, ID, IntValue(id)), c) ==
            if c == ID then IntValue(id) else Expected(rt, m, c)
  {
    DefaultsKeepTypes(rt, m, DEFAULTED);
    DefaultedAsks(rt, m, c);
    AccountCodecIsValid(codec);
    CreatedField(codec, Defaults(rt, m).0, id, c);
  }

  lemma SavedNodeReadsBack(rt: Runtime, w: World, data: seq<AccountMutation>, codec: Codec<Column>,
                           columns: seq<Column>, j: nat)
    requires w.entity == AccountTemplate(rt) && w.outcome.Created? && |w.outcome.ids| == |data|
    requires j < |data| && w.outcome.ids[j].Some? && Defaults(rt, data[j]).1.None?
    requires TypedRuntime(rt) && WellTyped(ACCOUNT, ID, data[j]) && AccountEdgesOnly(data[j])
    requires codec.schema == ACCOUNT && codec.id == ID && RoundTrips(codec)
    requires NoDuplicates(columns) && (forall d: Column :: d in columns <==> !d.Unknown?)
    ensures ReadsBack(rt, data[j], codec, columns, SpecsOf(w, data)[j], w.outcome.ids[j].value, NodesOf(w, data)[j])
  {
    var m, id: int := Defaults(rt, data[j]).0, w.outcome.ids[j].value;
    SavedSpecAndNode(rt, w, data, j);
    DefaultsKeepTypes(rt, data[j], DEFAULTED);
    AccountReadsBack(codec, m, id, columns, ID);
    forall c: Column | !c.Unknown?
      ensures Field(ACCOUNT, ReadBack(codec, CreateSpec(m).1, id, columns).0, c) ==
              Field(ACCOUNT, Put(CreateSpec(m).0, ID, IntValue(id)), c) ==
              if c == ID then IntValue(id) else Expected(rt, data[j], c)
    {
      AccountReadsBack(codec, m, id, columns, c);
      CreatedAsExpected(rt, data[j], codec, id, c);
    }
  }

  ghost predicate WellTypedInput(data: seq<AccountMutation>) {
    forall j :: 0 <= j < |data| ==> WellTyped(ACCOUNT, ID, data[j]) && AccountEdgesOnly(data[j])
  }

  /** Checks that pass mean that the defaults did not stop. */
  lemma PassingHasDefaults(rt: Runtime, w: World, data: seq<AccountMutation>, j: nat)
    requires w.entity == AccountTemplate(rt) && ValidRuntime(rt) && j < |data|
    requires AllPass(w, Start(Defaulted(w, data)).mutations, 0)
    ensures Defaults(rt, data[j]).1.None?
  {
    DroppedDefaultsErrorIsCaught(rt, data[j]);
    assert Passes(w, Start(Defaulted(w, data)).mutations, j);
  }

  lemma SavedIdentifier(rt: Runtime, w: World, data: seq<AccountMutation>, j: nat)
    requires w.entity == AccountTemplate(rt) && w.outcome.Created? && |w.outcome.ids| == |data|
    requires j < |data| && w.outcome.ids[j].Some?
    ensures w.entity.getID(NodesOf(w, data)[j].value) == w.outcome.ids[j].value
  {
    SavedSpecAndNode(rt, w, data, j);
  }

  /**
   From the builders to the table and back.  With forwarding hooks, checks that pass and a batch that goes through, Save
   returns one node per builder and marks every mutation with its identifier; one batch call carried one spec per
   builder; and reading the row of spec `j` under the identifier the database chose gives node `j`, field by field: the
   values the builder set, its defaults, and nothing else.
   */
  lemma SavedAccountsReadBack(rt: Runtime, w: World, data: seq<AccountMutation>, codec: Codec<Column>,
                              columns: seq<Column>)
    requires w.entity == AccountTemplate(rt) && Transparent(w) && w.outcome.Created?
    requires |data| == |w.hooks| == |w.outcome.ids| > 0 && (forall j :: 0 <= j < |data| ==> w.outcome.ids[j].Some?)
    requires AllPass(w, Start(Defaulted(w, data)).mutations, 0)
    requires ValidRuntime(rt) && TypedRuntime(rt) && WellTypedInput(data)
    requires codec.schema == ACCOUNT && codec.id == ID && RoundTrips(codec)
    requires NoDuplicates(columns) && (forall d: Column :: d in columns <==> !d.Unknown?)
    ensures var (s, r) := Save(w, data, None);
            && Batches(s.trace) == 1 && Batch(SpecsOf(w, data)) in s.trace && s.created == Some(w.outcome.ids)
            && (forall j :: 0 <= j < |data| ==> s.mutations[j].done && s.mutations[j].id == w.outcome.ids[j])
            && r.Ok? && |r.value| == |data|
            && forall j :: 0 <= j < |data| ==>
                 ReadsBack(rt, data[j], codec, columns, SpecsOf(w, data)[j], w.outcome.ids[j].value, r.value[j])
  {
    BulkSaveNested(w, data);
    forall j | 0 <= j < |data|
      ensures ReadsBack(rt, data[j], codec, columns, SpecsOf(w, data)[j], w.outcome.ids[j].value, NodesOf(w, data)[j])
      ensures w.entity.getID(NodesOf(w, data)[j].value) == w.outcome.ids[j].value
    {
      PassingHasDefaults(rt, w, data, j);
      SavedNodeReadsBack(rt, w, data, codec, columns, j);
      SavedIdentifier(rt, w, data, j);
    }
  }
}
