/**
 Moving one account between a row and a node: scanValues allocates a destination per column, assignValues copies the
 scanned destinations into the node, createSpec writes a node and the row it will become.
 */
module RowCodec {
  import opened Prelude
  import opened EntSchema

  /** A scan destination together with what the driver put into it. */
  datatype Slot =
    | NullInt64(i: int, valid: bool)
    | NullString(s: string, valid: bool)
    | NullBool(b: bool, valid: bool)
    | NullFloat64(f: real, valid: bool)
    | NullTime(t: int, valid: bool)
    | Bytes(bytes: string)
    | UnknownType(cell: Cell)

  /** One database cell; JSON travels as text. */
  datatype Cell = NullCell | Cell(value: Value) | Text(text: string)

  type Row<C> = map<C, Cell>

  /** The entity's schema with the json.Marshal and json.Unmarshal of its JSON columns. */
  datatype Codec<C> = Codec(schema: Schema<C>, id: C, marshal: Json -> string, unmarshal: string -> Option<Json>)

  ghost predicate RoundTrips<C(!new)>(codec: Codec<C>) {
    forall j: Json :: codec.marshal(j) != "" && codec.unmarshal(codec.marshal(j)) == Some(j)
  }

  /** The identifier is a plain integer column. */
  ghost predicate ValidCodec<C(!new)>(codec: Codec<C>) {
    KindsKnown(codec.schema) && codec.id in codec.schema && codec.schema[codec.id] == FieldType(IntKind, false)
  }

  datatype AssignError<C> = Mismatch | UnexpectedType(column: C) | Unmarshal(column: C)

  /******* Scanning *******/

  function EmptySlot<C(==, !new)>(schema: Schema<C>, c: C): Slot {
    match KindOf(schema, c)
    case IntKind => NullInt64(0, false)
    case StringKind => NullString("", false)
    case BoolKind => NullBool(false, false)
    case FloatKind => NullFloat64(0.0, false)
    case TimeKind => NullTime(ZERO_TIME, false)
    case JsonKind => Bytes("")
    case UnknownKind => UnknownType(NullCell)
  }

  method ScanValues<C(==, !new)>(schema: Schema<C>, columns: seq<C>) returns (values: array<Slot>)
    ensures fresh(values) && values.Length == |columns|
    ensures forall i :: 0 <= i < |columns| ==> values[i] == EmptySlot(schema, columns[i])
  {
    values := new Slot[|columns|](_ => UnknownType(NullCell));
    for i := 0 to |columns|
      invariant forall j :: 0 <= j < i ==> values[j] == EmptySlot(schema, columns[j])
    {
      values[i] := EmptySlot(schema, columns[i]);
    }
  }

  /** The cell can be scanned into the destination of its column. */
  predicate Fits<C(==, !new)>(schema: Schema<C>, c: C, cell: Cell) {
    match KindOf(schema, c)
    case JsonKind => cell.NullCell? || cell.Text?
    case UnknownKind => true
    case k => cell.NullCell? || (cell.Cell? && HasKind(cell.value, k))
  }

  /** What rows.Scan leaves in a destination. */
  function Fill(slot: Slot, cell: Cell): Slot {
    match slot
    case NullInt64(_, _) =>
      if cell.Cell? && cell.value.IntValue? then NullInt64(cell.value.i, true) else NullInt64(0, false)
    case NullString(_, _) =>
      if cell.Cell? && cell.value.StringValue? then NullString(cell.value.s, true) else NullString("", false)
    case NullBool(_, _) =>
      if cell.Cell? && cell.value.BoolValue? then NullBool(cell.value.b, true) else NullBool(false, false)
    case NullFloat64(_, _) =>
      if cell.Cell? && cell.value.FloatValue? then NullFloat64(cell.value.f, true) else NullFloat64(0.0, false)
    case NullTime(_, _) =>
      if cell.Cell? && cell.value.TimeValue? then NullTime(cell.value.t, true) else NullTime(ZERO_TIME, false)
    case Bytes(_) => if cell.Text? then Bytes(cell.text) else Bytes("")
    case UnknownType(_) => UnknownType(cell)
  }

  function CellOf<C(==, !new)>(row: Row<C>, c: C): Cell {
    if c in row then row[c] else NullCell
  }

  ghost function Scanned<C(!new)>(schema: Schema<C>, columns: seq<C>, row: Row<C>): seq<Slot> {
    seq(|columns|, i requires 0 <= i < |columns| => Fill(EmptySlot(schema, columns[i]), CellOf(row, columns[i])))
  }

  /******* Assigning *******/

  datatype Node<C> = Node(fields: map<C, Value>, selected: map<C, Slot>)

  function Field<C(==, !new)>(schema: Schema<C>, n: Node<C>, c: C): Value {
    if c in n.fields then n.fields[c] else Zero(schema, c)
  }

  function Put<C(==, !new)>(n: Node<C>, c: C, v: Value): Node<C> {
    n.(fields := n.fields[c := v])
  }

  /** json.Unmarshal into a map field: null clears it, an object merges into what is there. */
  function Merge(was: Value, j: Json): Value {
    match j
    case JNull => Nil
    case JObject(m) => if was.ObjectValue? then ObjectValue(was.members + m) else ObjectValue(m)
  }

  /** One case of the assignValues switch. */
  function AssignOne<C(==, !new)>(codec: Codec<C>, n: Node<C>, c: C, slot: Slot): Result<Node<C>, AssignError<C>> {
    match KindOf(codec.schema, c)
    case IntKind =>
      if !slot.NullInt64? then Err(UnexpectedType(c))
      else if c == codec.id || slot.valid then Ok(Put(n, c, IntValue(slot.i))) else Ok(n)
    case StringKind =>
      if !slot.NullString? then Err(UnexpectedType(c))
      else if slot.valid then Ok(Put(n, c, StringValue(slot.s))) else Ok(n)
    case BoolKind =>
      if !slot.NullBool? then Err(UnexpectedType(c)) else if slot.valid then Ok(Put(n, c, BoolValue(slot.b))) else Ok(n)
    case FloatKind =>
      if !slot.NullFloat64? then Err(UnexpectedType(c))
      else if slot.valid then Ok(Put(n, c, FloatValue(slot.f))) else Ok(n)
    case TimeKind =>
      if !slot.NullTime? then Err(UnexpectedType(c)) else if slot.valid then Ok(Put(n, c, TimeValue(slot.t))) else Ok(n)
    case JsonKind =>
      if !slot.Bytes? then Err(UnexpectedType(c))
      else if slot.bytes == "" then Ok(n)
      else
        var j := codec.unmarshal(slot.bytes);
        if j.None? then Err(Unmarshal(c)) else Ok(Put(n, c, Merge(Field(codec.schema, n, c), j.value)))
    case UnknownKind => Ok(n.(selected := n.selected[c := slot]))
  }

  /** The node after the loop went through the first columns, and the error that stopped it, if any. */
  ghost function AssignAll<C(!new)>(codec: Codec<C>, n: Node<C>, columns: seq<C>, values: seq<Slot>)
    : (Node<C>, Option<AssignError<C>>)
    requires |columns| <= |values|
  {
    if columns == [] then (n, None)
    else
      var (m, err) := AssignAll(codec, n, Init(columns), values[..|columns| - 1]);
      if err.Some? then (m, err)
      else
        match AssignOne(codec, m, Last(columns), values[|columns| - 1])
        case Ok(m') => (m', None)
        case Err(e) => (m, Some(e))
  }

  class Entity<C(==, !new)> {
    var node: Node<C>

    constructor ()
      ensures node == Node(map[], map[])
    {
      node := Node(map[], map[]);
    }

    method AssignValues(codec: Codec<C>, columns: seq<C>, values: seq<Slot>) returns (err: Option<AssignError<C>>)
      modifies this
      ensures |values| < |columns| ==> err == Some(Mismatch) && node == old(node)
      ensures |values| >= |columns| ==> (node, err) == AssignAll(codec, old(node), columns, values)
    {
      if |values| < |columns| {
        return Some(Mismatch);
      }
      for i := 0 to |columns|
        invariant (node, None) == AssignAll(codec, old(node), columns[..i], values[..i])
      {
        assert Init(columns[..i + 1]) == columns[..i] && values[..i + 1][..i] == values[..i];
        match AssignOne(codec, node, columns[i], values[i]) {
          case Ok(m) => node := m;
          case Err(e) =>
            AssignStops(codec, old(node), columns, i + 1, values);
            return Some(e);
        }
      }
      assert columns[..|columns|] == columns;
      AssignPrefix(codec, old(node), columns, values);
      return None;
    }
  }

  /** Destinations beyond the columns are never looked at. */
  lemma AssignPrefix<C(!new)>(codec: Codec<C>, n: Node<C>, columns: seq<C>, values: seq<Slot>)
    requires |columns| <= |values|
    ensures AssignAll(codec, n, columns, values) == AssignAll(codec, n, columns, values[..|columns|])
  {
    if columns != [] {
      assert values[..|columns|][..|columns| - 1] == values[..|columns| - 1];
    }
  }

  lemma {:induction false} AssignStops<C(!new)>(codec: Codec<C>, n: Node<C>, columns: seq<C>, i: nat, values: seq<Slot>)
    requires i <= |columns| <= |values|
    requires AssignAll(codec, n, columns[..i], values[..i]).1.Some?
    ensures AssignAll(codec, n, columns, values) == AssignAll(codec, n, columns[..i], values[..i])
    decreases |columns|
  {
    if i == |columns| {
      assert columns[..i] == columns;
      AssignPrefix(codec, n, columns, values);
    } else {
      assert Init(columns)[..i] == columns[..i] && values[..|columns| - 1][..i] == values[..i];
      AssignStops(codec, n, Init(columns), i, values[..|columns| - 1]);
    }
  }

  /******* What a cell means *******/

  /** The field of a fresh node that was assigned the cell. */
  ghost function Decoded<C(!new)>(codec: Codec<C>, c: C, cell: Cell): Value {
    match cell
    case NullCell => Zero(codec.schema, c)
    case Cell(v) => v
    case Text(t) =>
      if t == "" then Nil
      else
        var j := codec.unmarshal(t);
        if j.None? then Nil else Merge(Nil, j.value)
  }

  ghost predicate JsonReads<C(!new)>(codec: Codec<C>, c: C, cell: Cell) {
    KindOf(codec.schema, c) == JsonKind && cell.Text? && cell.text != "" ==> codec.unmarshal(cell.text).Some?
  }

  ghost predicate RowFits<C(!new)>(codec: Codec<C>, columns: seq<C>, row: Row<C>) {
    forall c :: c in columns ==> Fits(codec.schema, c, CellOf(row, c))
  }

  function FreshNode<C>(): Node<C> { Node(map[], map[]) }

  /** A scanned cell always has the type its column's case expects. */
  lemma OnlyJsonFails<C(!new)>(codec: Codec<C>, n: Node<C>, c: C, cell: Cell)
    requires Fits(codec.schema, c, cell)
    ensures var r := AssignOne(codec, n, c, Fill(EmptySlot(codec.schema, c), cell));
            (r.Ok? <==> JsonReads(codec, c, cell)) && (r.Err? ==> r.error == Unmarshal(c))
  {
  }

  /**
   Scanned destinations always fit: whatever the columns, assigning them fails on neither length nor type.  The only
   failure left is a JSON text that does not parse.
   */
  lemma {:induction false} NeverTypeError<C(!new)>(codec: Codec<C>, n: Node<C>, columns: seq<C>, row: Row<C>)
    requires RowFits(codec, columns, row)
    ensures var err := AssignAll(codec, n, columns, Scanned(codec.schema, columns, row)).1;
            && (err.Some? ==> err.value.Unmarshal? && err.value.column in columns
                              && !JsonReads(codec, err.value.column, CellOf(row, err.value.column)))
            && (err.None? <==> forall c :: c in columns ==> JsonReads(codec, c, CellOf(row, c)))
  {
    if columns != [] {
      NeverTypeError(codec, n, Init(columns), row);
      PrefixScan(codec, columns, row);
      var (m, _) := AssignAll(codec, n, Init(columns), Scanned(codec.schema, Init(columns), row));
      OnlyJsonFails(codec, m, Last(columns), CellOf(row, Last(columns)));
      assert forall c :: c in columns <==> c in Init(columns) || c == Last(columns);
    }
  }

  /** The destinations of a shorter column list are a prefix. */
  lemma PrefixScan<C(!new)>(codec: Codec<C>, columns: seq<C>, row: Row<C>)
    requires columns != []
    ensures Scanned(codec.schema, columns, row)[..|columns| - 1] == Scanned(codec.schema, Init(columns), row)
  {
  }

  /** A JSON text on any node: null clears the field, an object joins the one there, and no text changes nothing. */
  lemma AssignJson<C(!new)>(codec: Codec<C>, n: Node<C>, c: C, text: string)
    requires KindOf(codec.schema, c) == JsonKind
    ensures var r := AssignOne(codec, n, c, Bytes(text));
            && (text == "" ==> r == Ok(n))
            && (text != "" && codec.unmarshal(text).None? ==> r == Err(Unmarshal(c)))
            && (text != "" && codec.unmarshal(text) == Some(JNull) ==>
                  r.Ok? && Field(codec.schema, r.value, c) == Nil)
            && (forall m, was :: (text != "" && codec.unmarshal(text) == Some(JObject(m)) &&
                                  Field(codec.schema, n, c) == ObjectValue(was)) ==>
                  (r.Ok? && Field(codec.schema, r.value, c) == ObjectValue(was + m)))
            && (forall m :: (text != "" && codec.unmarshal(text) == Some(JObject(m)) &&
                             !Field(codec.schema, n, c).ObjectValue?) ==>
                  (r.Ok? && Field(codec.schema, r.value, c) == ObjectValue(m)))
  {
  }

  /** Assigning one scanned cell sets that column's field and no other; NULL leaves it alone. */
  lemma AssignsOneCell<C(!new)>(codec: Codec<C>, n: Node<C>, c: C, cell: Cell)
    requires ValidCodec(codec) && Fits(codec.schema, c, cell) && JsonReads(codec, c, cell)
    requires c in codec.schema ==> Field(codec.schema, n, c) == Zero(codec.schema, c)
    ensures var r := AssignOne(codec, n, c, Fill(EmptySlot(codec.schema, c), cell));
            && r.Ok?
            && (forall d :: d != c ==> Field(codec.schema, r.value, d) == Field(codec.schema, n, d))
            && (c in codec.schema ==>
                  Field(codec.schema, r.value, c) == Decoded(codec, c, cell) && r.value.selected == n.selected)
            && (c !in codec.schema ==> r.value.selected == n.selected[c := UnknownType(cell)])
  {
  }

  /**
   Reading a row into a fresh node with distinct columns: every field is the decoded cell of its column, and a field
   without a column, or whose cell is NULL, keeps its zero value.  A name outside the schema is kept aside.
   */
  lemma {:induction false} ReadsEveryCell<C(!new)>(codec: Codec<C>, columns: seq<C>, row: Row<C>, c: C)
    requires ValidCodec(codec) && NoDuplicates(columns) && RowFits(codec, columns, row)
    requires forall d :: d in columns ==> JsonReads(codec, d, CellOf(row, d))
    ensures var (n, err) := AssignAll(codec, FreshNode(), columns, Scanned(codec.schema, columns, row));
            && err.None?
            && (c in codec.schema ==>
                  Field(codec.schema, n, c) ==
                  if c in columns then Decoded(codec, c, CellOf(row, c)) else Zero(codec.schema, c))
            && (c in n.selected <==> c in columns && c !in codec.schema)
            && (c in n.selected ==> n.selected[c] == UnknownType(CellOf(row, c)))
  {
    if columns != [] {
      ReadsEveryCell(codec, Init(columns), row, c);
      ReadsEveryCell(codec, Init(columns), row, Last(columns));
      PrefixScan(codec, columns, row);
      var (m, _) := AssignAll(codec, FreshNode(), Init(columns), Scanned(codec.schema, Init(columns), row));
      AssignsOneCell(codec, m, Last(columns), CellOf(row, Last(columns)));
    }
  }

  /** The order of distinct columns does not matter. */
  lemma OrderIrrelevant<C(!new)>(codec: Codec<C>, a: seq<C>, b: seq<C>, row: Row<C>, c: C)
    requires NoDuplicates(a) && NoDuplicates(b) && (forall d :: d in a <==> d in b)
    requires ValidCodec(codec) && RowFits(codec, a, row)
    ensures var (n, err) := AssignAll(codec, FreshNode(), a, Scanned(codec.schema, a, row));
            var (m, err') := AssignAll(codec, FreshNode(), b, Scanned(codec.schema, b, row));
            && (err.None? <==> err'.None?)
            && (err.None? && c in codec.schema ==> Field(codec.schema, n, c) == Field(codec.schema, m, c))
            && (err.None? ==> (c in n.selected <==> c in m.selected))
            && (err.None? && c in n.selected ==> n.selected[c] == m.selected[c])
  {
    NeverTypeError(codec, FreshNode(), a, row);
    NeverTypeError(codec, FreshNode(), b, row);
    if forall d :: d in a ==> JsonReads(codec, d, CellOf(row, d)) {
      ReadsEveryCell(codec, a, row, c);
      ReadsEveryCell(codec, b, row, c);
    }
  }

  /******* Creating *******/

  /** The row an insert describes: the field values, and the keys of the two many-to-one edges. */
  datatype Spec<C> = Spec(fields: map<C, Value>, edges: map<C, int>)

  /** createSpec builds the node to return and the row to insert side by side. */
  function CreateSpec<C(==, !new)>(m: Mutation<C>): (Node<C>, Spec<C>) {
    (Node(m.fields + (map c | c in m.edges :: IntValue(m.edges[c])), map[]), Spec(m.fields, m.edges))
  }

  ghost function Restrict<C(!new), V>(m: map<C, V>, cs: seq<C>): map<C, V> {
    map c | c in m && c in cs :: m[c]
  }

  lemma RestrictSnoc<C(!new), V>(m: map<C, V>, cs: seq<C>, i: nat)
    requires i < |cs|
    ensures Restrict(m, cs[..i + 1]) ==
            if cs[i] in m then Restrict(m, cs[..i])[cs[i] := m[cs[i]]] else Restrict(m, cs[..i])
  {
    assert cs[..i + 1] == cs[..i] + [cs[i]];
  }

  lemma RestrictAll<C(!new), V>(m: map<C, V>, cs: seq<C>)
    requires forall c :: c in m ==> c in cs
    ensures Restrict(m, cs[..|cs|]) == m
  {
    assert cs[..|cs|] == cs;
  }

  /** The key of one more edge in the node. */
  lemma EdgeSnoc<C(!new)>(fields: map<C, Value>, edges: map<C, int>, c: C, k: int)
    ensures Put(CreateSpec(Mutation(fields, edges)).0, c, IntValue(k)) == CreateSpec(Mutation(fields, edges[c := k])).0
  {
  }

  /** The branches of createSpec for the fields, one after the other. */
  method SetFields<C(==, !new)>(m: Mutation<C>, fields: seq<C>) returns (node: Node<C>, spec: Spec<C>)
    requires forall c :: c in m.fields ==> c in fields
    ensures node == Node(m.fields, map[]) && spec == Spec(m.fields, map[])
  {
    node, spec := Node(map[], map[]), Spec(map[], map[]);
    for i := 0 to |fields|
      invariant node == Node(Restrict(m.fields, fields[..i]), map[])
      invariant spec == Spec(Restrict(m.fields, fields[..i]), map[])
    {
      RestrictSnoc(m.fields, fields, i);
      var c := fields[i];
      if c in m.fields {
        spec := spec.(fields := spec.fields[c := m.fields[c]]);
        node := Put(node, c, m.fields[c]);
      }
    }
    RestrictAll(m.fields, fields);
  }

  /** The fields, and then the many-to-one edges with their key columns: the node and the row are built side by side. */
  method BuildSpec<C(==, !new)>(m: Mutation<C>, fields: seq<C>, keys: seq<C>) returns (node: Node<C>, spec: Spec<C>)
    requires forall c :: c in m.fields ==> c in fields
    requires forall c :: c in m.edges ==> c in keys
    ensures (node, spec) == CreateSpec(m)
  {
    node, spec := SetFields(m, fields);
    assert node.fields == CreateSpec(Mutation(m.fields, map[])).0.fields;
    for i := 0 to |keys|
      invariant spec == Spec(m.fields, Restrict(m.edges, keys[..i]))
      invariant node == CreateSpec(Mutation(m.fields, Restrict(m.edges, keys[..i]))).0
    {
      RestrictSnoc(m.edges, keys, i);
      var c := keys[i];
      if c in m.edges {
        EdgeSnoc(m.fields, Restrict(m.edges, keys[..i]), c, m.edges[c]);
        node := Put(node, c, IntValue(m.edges[c]));
        spec := spec.(edges := spec.edges[c := m.edges[c]]);
      }
    }
    RestrictAll(m.edges, keys);
  }

  function ToCell<C(==, !new)>(codec: Codec<C>, v: Value): Cell {
    match v
    case ObjectValue(m) => Text(codec.marshal(JObject(m)))
    case Nil => Text(codec.marshal(JNull))
    case _ => Cell(v)
  }

  /** The stored row: columns the spec does not mention are NULL, the database chose the identifier. */
  function RowOf<C(==, !new)>(codec: Codec<C>, spec: Spec<C>, id: int): Row<C> {
    (map c | c in spec.fields :: ToCell(codec, spec.fields[c])) +
    (map c | c in spec.edges :: Cell(IntValue(spec.edges[c]))) +
    map[codec.id := Cell(IntValue(id))]
  }

  /** What a mutation asks for in a column: a field it sets, the key of an edge it sets, or nothing. */
  ghost function Asked<C(!new)>(m: Mutation<C>, c: C): Option<Value> {
    if c in m.edges then Some(IntValue(m.edges[c])) else if c in m.fields then Some(m.fields[c]) else None
  }

  /**
   The node and the row both hold what the mutation asks for: in every column it sets, the stored cell decodes to the
   value and the node's field is the value; every other column but the identifier is NULL in the row and zero in the
   node.
   */
  lemma CreateMeaning<C(!new)>(codec: Codec<C>, m: Mutation<C>, id: int, c: C)
    requires ValidCodec(codec) && RoundTrips(codec) && WellTyped(codec.schema, codec.id, m) && c != codec.id
    ensures var (node, spec) := CreateSpec(m);
            var cell, field := CellOf(RowOf(codec, spec, id), c), Field(codec.schema, node, c);
            && (Asked(m, c).Some? ==> cell != NullCell && Decoded(codec, c, cell) == Asked(m, c).value == field)
            && (Asked(m, c).None? ==> cell == NullCell && field == Zero(codec.schema, c))
  {
    var (node, spec) := CreateSpec(m);
    var row := RowOf(codec, spec, id);
    if c in m.edges {
      assert row[c] == Cell(IntValue(m.edges[c]));
    } else if c in m.fields {
      var v := m.fields[c];
      assert row[c] == ToCell(codec, v);
      if codec.schema[c].kind == JsonKind {
        var j := if v.Nil? then JNull else JObject(v.members);
        assert codec.unmarshal(codec.marshal(j)) == Some(j);
      }
    } else {
      assert c !in row;
    }
  }

  /** The field of the node once it knows its identifier. */
  lemma CreatedField<C(!new)>(codec: Codec<C>, m: Mutation<C>, id: int, c: C)
    requires ValidCodec(codec) && RoundTrips(codec) && WellTyped(codec.schema, codec.id, m)
    ensures Field(codec.schema, Put(CreateSpec(m).0, codec.id, IntValue(id)), c) ==
            if c == codec.id then IntValue(id)
            else if Asked(m, c).Some? then Asked(m, c).value else Zero(codec.schema, c)
  {
    if c != codec.id {
      CreateMeaning(codec, m, id, c);
    }
  }

  /** The identifier column of the stored row. */
  lemma CreatedIdentifier<C(!new)>(codec: Codec<C>, m: Mutation<C>, id: int)
    ensures CellOf(RowOf(codec, CreateSpec(m).1, id), codec.id) == Cell(IntValue(id))
  {
  }

  /** A single cell of the stored row decodes to the field of the created node. */
  lemma StoredCell<C(!new)>(codec: Codec<C>, m: Mutation<C>, id: int, c: C)
    requires ValidCodec(codec) && RoundTrips(codec) && WellTyped(codec.schema, codec.id, m) && c in codec.schema
    ensures var (node, spec) := CreateSpec(m);
            var cell := CellOf(RowOf(codec, spec, id), c);
            && Fits(codec.schema, c, cell) && JsonReads(codec, c, cell)
            && Decoded(codec, c, cell) == Field(codec.schema, Put(node, codec.id, IntValue(id)), c)
  {
    if c in m.fields && codec.schema[c].kind == JsonKind {
      var v := m.fields[c];
      var j := if v.Nil? then JNull else JObject(v.members);
      assert codec.unmarshal(codec.marshal(j)) == Some(j);
    }
  }

  /**
   Creating and then reading gives the created node back, foreign keys and unset nullable fields included, for every
   order in which all columns are read.
   */
  lemma CreateThenRead<C(!new)>(codec: Codec<C>, m: Mutation<C>, id: int, columns: seq<C>, c: C)
    requires ValidCodec(codec) && RoundTrips(codec) && WellTyped(codec.schema, codec.id, m)
    requires NoDuplicates(columns) && (forall d :: d in columns <==> d in codec.schema)
    requires c in codec.schema
    ensures var (node, spec) := CreateSpec(m);
            var slots := Scanned(codec.schema, columns, RowOf(codec, spec, id));
            var (read, err) := AssignAll(codec, FreshNode(), columns, slots);
            err.None? && Field(codec.schema, read, c) == Field(codec.schema, Put(node, codec.id, IntValue(id)), c)
  {
    var row := RowOf(codec, CreateSpec(m).1, id);
    forall d | d in columns ensures Fits(codec.schema, d, CellOf(row, d)) && JsonReads(codec, d, CellOf(row, d)) {
      StoredCell(codec, m, id, d);
    }
    ReadsEveryCell(codec, columns, row, c);
    StoredCell(codec, m, id, c);
  }
}
