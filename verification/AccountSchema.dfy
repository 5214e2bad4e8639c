/** The columns of the accounts table and the Go types behind them. */
module AccountSchema {
  import opened EntSchema

  datatype Column =
    | ID | CreatedAt | UpdatedAt | DeletedAt | Name | Notes | Platform | Type | Credentials | Extra
    | ProxyID | ProxyFallbackOriginID | Concurrency | LoadFactor | Priority | RateMultiplier | Status | ErrorMessage
    | LastUsedAt | ExpiresAt | AutoPauseOnExpired | Schedulable | RateLimitedAt | RateLimitResetAt | OverloadUntil
    | TempUnschedulableUntil | TempUnschedulableReason | SessionWindowStart | SessionWindowEnd | SessionWindowStatus
    | ParentAccountID | QuotaDimension
    | Unknown(name: string)

  /** The columns of the table. */
  const COLUMNS: set<Column> := {
    ID, CreatedAt, UpdatedAt, DeletedAt, Name, Notes, Platform, Type, Credentials, Extra, ProxyID,
    ProxyFallbackOriginID, Concurrency, LoadFactor, Priority, RateMultiplier, Status, ErrorMessage, LastUsedAt,
    ExpiresAt, AutoPauseOnExpired, Schedulable, RateLimitedAt, RateLimitResetAt, OverloadUntil,
    TempUnschedulableUntil, TempUnschedulableReason, SessionWindowStart, SessionWindowEnd, SessionWindowStatus,
    ParentAccountID, QuotaDimension}

  /** The Go type of each column's field. */
  function TypeOf(c: Column): FieldType {
    match c
    case ID => FieldType(IntKind, false)
    case CreatedAt => FieldType(TimeKind, false)
    case UpdatedAt => FieldType(TimeKind, false)
    case DeletedAt => FieldType(TimeKind, true)
    case Name => FieldType(StringKind, false)
    case Notes => FieldType(StringKind, true)
    case Platform => FieldType(StringKind, false)
    case Type => FieldType(StringKind, false)
    case Credentials => FieldType(JsonKind, false)
    case Extra => FieldType(JsonKind, false)
    case ProxyID => FieldType(IntKind, true)
    case ProxyFallbackOriginID => FieldType(IntKind, true)
    case Concurrency => FieldType(IntKind, false)
    case LoadFactor => FieldType(IntKind, true)
    case Priority => FieldType(IntKind, false)
    case RateMultiplier => FieldType(FloatKind, false)
    case Status => FieldType(StringKind, false)
    case ErrorMessage => FieldType(StringKind, true)
    case LastUsedAt => FieldType(TimeKind, true)
    case ExpiresAt => FieldType(TimeKind, true)
    case AutoPauseOnExpired => FieldType(BoolKind, false)
    case Schedulable => FieldType(BoolKind, false)
    case RateLimitedAt => FieldType(TimeKind, true)
    case RateLimitResetAt => FieldType(TimeKind, true)
    case OverloadUntil => FieldType(TimeKind, true)
    case TempUnschedulableUntil => FieldType(TimeKind, true)
    case TempUnschedulableReason => FieldType(StringKind, true)
    case SessionWindowStart => FieldType(TimeKind, true)
    case SessionWindowEnd => FieldType(TimeKind, true)
    case SessionWindowStatus => FieldType(StringKind, true)
    case ParentAccountID => FieldType(IntKind, true)
    case QuotaDimension => FieldType(StringKind, false)
    case Unknown(_) => FieldType(UnknownKind, true)
  }

  const ACCOUNT: Schema<Column> := map c | c in COLUMNS :: TypeOf(c)

  lemma ColumnIsKnown(c: Column)
    ensures c in COLUMNS <==> !c.Unknown?
  {
  }

  lemma KindIsKnown(c: Column)
    ensures TypeOf(c).kind == UnknownKind <==> c.Unknown?
  {
  }

  lemma TypeInTable(c: Column)
    ensures c in ACCOUNT <==> c in COLUMNS
    ensures c in ACCOUNT ==> ACCOUNT[c] == TypeOf(c)
  {
  }

  /** The table covers exactly the columns, and knows the type of each. */
  lemma AccountSchemaIsKnown()
    ensures KindsKnown(ACCOUNT)
    ensures forall c: Column :: c in ACCOUNT <==> !c.Unknown?
    ensures forall c: Column :: c in ACCOUNT ==> ACCOUNT[c] == TypeOf(c)
  {
    forall c: Column
      ensures c in ACCOUNT <==> !c.Unknown?
      ensures c in ACCOUNT ==> ACCOUNT[c] == TypeOf(c) && ACCOUNT[c].kind != UnknownKind
    {
      ColumnIsKnown(c);
      KindIsKnown(c);
      TypeInTable(c);
    }
  }

  /** The pointer fields of the Account struct. */
  lemma AccountPointers(c: Column)
    requires !c.Unknown?
    ensures TypeOf(c).nillable <==>
            c in {DeletedAt, Notes, ProxyID, ProxyFallbackOriginID, LoadFactor, ErrorMessage, LastUsedAt, ExpiresAt,
                  RateLimitedAt, RateLimitResetAt, OverloadUntil, TempUnschedulableUntil, TempUnschedulableReason,
                  SessionWindowStart, SessionWindowEnd, SessionWindowStatus, ParentAccountID}
  {
  }

  /** The columns of each scan type. */
  lemma AccountKinds(c: Column)
    requires !c.Unknown?
    ensures TypeOf(c).kind == JsonKind <==> c in {Credentials, Extra}
    ensures TypeOf(c).kind == BoolKind <==> c in {AutoPauseOnExpired, Schedulable}
    ensures TypeOf(c).kind == FloatKind <==> c == RateMultiplier
  {
  }

  lemma AccountIntegers(c: Column)
    requires !c.Unknown?
    ensures TypeOf(c).kind == IntKind <==>
            c in {ID, ProxyID, ProxyFallbackOriginID, Concurrency, LoadFactor, Priority, ParentAccountID}
  {
  }

  lemma AccountStrings(c: Column)
    requires !c.Unknown?
    ensures TypeOf(c).kind == StringKind <==>
            c in {Name, Notes, Platform, Type, Status, ErrorMessage, TempUnschedulableReason, SessionWindowStatus,
                  QuotaDimension}
  {
  }

  /** What an account holds in a column that nobody set. */
  lemma AccountZeroValues(c: Column)
    requires !c.Unknown? && c in ACCOUNT && !ACCOUNT[c].nillable
    ensures Zero(ACCOUNT, c) ==
            match ACCOUNT[c].kind
            case IntKind => IntValue(0)
            case StringKind => StringValue("")
            case BoolKind => BoolValue(false)
            case FloatKind => FloatValue(0.0)
            case TimeKind => TimeValue(ZERO_TIME)
            case _ => Nil
  {
    AccountSchemaIsKnown();
  }

  lemma AccountNilValues(c: Column)
    requires !c.Unknown? && c in ACCOUNT && ACCOUNT[c].nillable
    ensures Zero(ACCOUNT, c) == Nil
  {
    AccountSchemaIsKnown();
  }

  /** The place of a column in the table. */
  function Position(c: Column): nat {
    match c
    case ID => 0 case CreatedAt => 1 case UpdatedAt => 2 case DeletedAt => 3 case Name => 4 case Notes => 5
    case Platform => 6 case Type => 7 case Credentials => 8 case Extra => 9 case ProxyID => 10
    case ProxyFallbackOriginID => 11 case Concurrency => 12 case LoadFactor => 13 case Priority => 14
    case RateMultiplier => 15 case Status => 16 case ErrorMessage => 17 case LastUsedAt => 18 case ExpiresAt => 19
    case AutoPauseOnExpired => 20 case Schedulable => 21 case RateLimitedAt => 22 case RateLimitResetAt => 23
    case OverloadUntil => 24 case TempUnschedulableUntil => 25 case TempUnschedulableReason => 26
    case SessionWindowStart => 27 case SessionWindowEnd => 28 case SessionWindowStatus => 29
    case ParentAccountID => 30 case QuotaDimension => 31 case Unknown(_) => 32
  }
}
