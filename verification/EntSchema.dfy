/** What the generated code of any entity knows about its columns, and the values that travel between row and node. */
module EntSchema {
  datatype Kind = IntKind | StringKind | BoolKind | FloatKind | TimeKind | JsonKind | UnknownKind

  /** A decoded JSON document, as far as the two JSON columns can hold one. */
  datatype Json = JNull | JObject(members: map<string, string>)

  /** What a node field holds; Nil is a nil pointer or a nil map. */
  datatype Value =
    | Nil
    | IntValue(i: int)
    | StringValue(s: string)
    | BoolValue(b: bool)
    | FloatValue(f: real)
    | TimeValue(t: int)
    | ObjectValue(members: map<string, string>)

  /** The Go type of a column's field, and whether the field is a pointer. */
  datatype FieldType = FieldType(kind: Kind, nillable: bool)

  /** The generated switch statements of an entity, as a table from column names. */
  type Schema<C> = map<C, FieldType>

  ghost predicate KindsKnown<C>(schema: Schema<C>) {
    forall c :: c in schema ==> schema[c].kind != UnknownKind
  }

  function KindOf<C>(schema: Schema<C>, c: C): Kind {
    if c in schema then schema[c].kind else UnknownKind
  }

  /** The zero time of Go. */
  const ZERO_TIME: int := 0

  /** What a field of a fresh node holds. */
  function Zero<C>(schema: Schema<C>, c: C): Value {
    if c !in schema || schema[c].nillable then Nil
    else match schema[c].kind
      case IntKind => IntValue(0)
      case StringKind => StringValue("")
      case BoolKind => BoolValue(false)
      case FloatKind => FloatValue(0.0)
      case TimeKind => TimeValue(ZERO_TIME)
      case JsonKind => Nil
      case UnknownKind => Nil
  }

  /** The value has the Go type of the column's field (after following the pointer). */
  predicate HasKind(v: Value, k: Kind) {
    match k
    case IntKind => v.IntValue?
    case StringKind => v.StringValue?
    case BoolKind => v.BoolValue?
    case FloatKind => v.FloatValue?
    case TimeKind => v.TimeValue?
    case JsonKind => v.ObjectValue? || v.Nil?
    case UnknownKind => false
  }

  /** The pending field values of a create, and the targets of its many-to-one edges under their key columns. */
  datatype Mutation<C> = Mutation(fields: map<C, Value>, edges: map<C, int>)

  ghost predicate WellTyped<C>(schema: Schema<C>, id: C, m: Mutation<C>) {
    && (forall c :: c in m.fields ==> c in schema && c != id && HasKind(m.fields[c], schema[c].kind))
    && (forall c :: c in m.edges ==> c in schema && c != id && schema[c].kind == IntKind && c !in m.fields)
  }
}
