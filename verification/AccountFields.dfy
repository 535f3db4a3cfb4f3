/** What a draft supplies, column by column, and what creating the account makes of it: the
    values sent to the insert, the node that is returned, and the row that is read back. */
module AccountFields {
  import opened Wrappers
  import opened AccountSchema
  import opened AccountCodec

  /** A value that a setter was called with. */
  datatype Value =
    | Number(n: int)
    | Fraction(x: real)
    | Truth(b: bool)
    | Words(s: string)
    | Moment(t: Time)
    | Tree(d: Document)

  /** The value the draft supplies for a column, if its setter was called. */
  function Supplied(d: Draft, c: Column): Option<Value>
  {
    match c
    case Name => if d.name.None? then None else Some(Words(d.name.value))
    case Platform => if d.platform.None? then None else Some(Words(d.platform.value))
    case Type => if d.kind.None? then None else Some(Words(d.kind.value))
    case Notes => if d.notes.None? then None else Some(Words(d.notes.value))
    case Status => if d.status.None? then None else Some(Words(d.status.value))
    case ErrorMessage => if d.errorMessage.None? then None else Some(Words(d.errorMessage.value))
    case TempUnschedulableReason =>
      if d.tempUnschedulableReason.None? then None else Some(Words(d.tempUnschedulableReason.value))
    case SessionWindowStatus => if d.sessionWindowStatus.None? then None else Some(Words(d.sessionWindowStatus.value))
    case QuotaDimension => if d.quotaDimension.None? then None else Some(Words(d.quotaDimension.value))
    case Credentials => if d.credentials.None? then None else Some(Tree(d.credentials.value))
    case Extra => if d.extra.None? then None else Some(Tree(d.extra.value))
    case ProxyID => if d.proxy.None? then None else Some(Number(d.proxy.value))
    case ParentAccountID => if d.parent.None? then None else Some(Number(d.parent.value))
    case ProxyFallbackOriginID => if d.proxyFallbackOriginID.None? then None else Some(Number(d.proxyFallbackOriginID.value))
    case Concurrency => if d.concurrency.None? then None else Some(Number(d.concurrency.value))
    case LoadFactor => if d.loadFactor.None? then None else Some(Number(d.loadFactor.value))
    case Priority => if d.priority.None? then None else Some(Number(d.priority.value))
    case RateMultiplier => if d.rateMultiplier.None? then None else Some(Fraction(d.rateMultiplier.value))
    case AutoPauseOnExpired => if d.autoPauseOnExpired.None? then None else Some(Truth(d.autoPauseOnExpired.value))
    case Schedulable => if d.schedulable.None? then None else Some(Truth(d.schedulable.value))
    case CreatedAt => if d.createdAt.None? then None else Some(Moment(d.createdAt.value))
    case UpdatedAt => if d.updatedAt.None? then None else Some(Moment(d.updatedAt.value))
    case DeletedAt => if d.deletedAt.None? then None else Some(Moment(d.deletedAt.value))
    case LastUsedAt => if d.lastUsedAt.None? then None else Some(Moment(d.lastUsedAt.value))
    case ExpiresAt => if d.expiresAt.None? then None else Some(Moment(d.expiresAt.value))
    case RateLimitedAt => if d.rateLimitedAt.None? then None else Some(Moment(d.rateLimitedAt.value))
    case RateLimitResetAt => if d.rateLimitResetAt.None? then None else Some(Moment(d.rateLimitResetAt.value))
    case OverloadUntil => if d.overloadUntil.None? then None else Some(Moment(d.overloadUntil.value))
    case TempUnschedulableUntil =>
      if d.tempUnschedulableUntil.None? then None else Some(Moment(d.tempUnschedulableUntil.value))
    case SessionWindowStart => if d.sessionWindowStart.None? then None else Some(Moment(d.sessionWindowStart.value))
    case SessionWindowEnd => if d.sessionWindowEnd.None? then None else Some(Moment(d.sessionWindowEnd.value))
    case ID => None
    case Other(_) => None
  }

  /** The cell that stores a value; it is never NULL. */
  function CellOf(v: Value, j: Json): (cell: Cell)
    ensures !cell.Null?
  {
    match v
    case Number(n) => IntCell(n)
    case Fraction(x) => RealCell(x)
    case Truth(b) => BoolCell(b)
    case Words(s) => TextCell(s)
    case Moment(t) => TimeCell(t)
    case Tree(d) => BytesCell(j.encode(d))
  }

  /** The field is this value, or zero if there is none. */
  predicate Holds(f: Field, v: Option<Value>)
  {
    match v
    case None => IsZero(f)
    case Some(Number(n)) => f == Num(n) || f == OptNum(Some(n))
    case Some(Fraction(x)) => f == Ratio(x)
    case Some(Truth(b)) => f == Flag(b)
    case Some(Words(s)) => f == Text(s) || f == OptText(Some(s))
    case Some(Moment(t)) => f == Instant(t) || f == OptInstant(Some(t))
    case Some(Tree(d)) => f == Doc(d)
  }

  // ----- createSpec

  /** Every supplied value is sent as it is, false and zero included, and nothing else is sent. */
  ghost predicate Sends(cells: Column -> Cell, d: Draft, j: Json)
  {
    forall c :: cells(c) == match Supplied(d, c) case None => Null case Some(v) => CellOf(v, j)
  }

  /** Every field of the node is the supplied value, or zero; the ID aside. */
  ghost predicate Carries(r: Row, d: Draft)
  {
    forall c: Column :: !c.ID? ==> Holds(FieldOf(r, c), Supplied(d, c))
  }

  lemma SpecSends(d: Draft, c: Column, j: Json)
    ensures SpecCell(d, c, j) == match Supplied(d, c) case None => Null case Some(v) => CellOf(v, j)
  {
  }

  lemma NodeHoldsNumbers(d: Draft, c: Column)
    requires c == ProxyID || c == ProxyFallbackOriginID || c == Concurrency || c == LoadFactor || c == Priority || c == RateMultiplier ||
             c == AutoPauseOnExpired || c == Schedulable || c == ParentAccountID
    ensures Holds(FieldOf(SpecNode(d), c), Supplied(d, c))
  {
  }

  lemma NodeHoldsTexts(d: Draft, c: Column)
    requires c == Name || c == Notes || c == Platform || c == Type || c == Credentials || c == Extra || c == Status ||
             c == ErrorMessage || c == TempUnschedulableReason || c == SessionWindowStatus || c == QuotaDimension || c.Other?
    ensures Holds(FieldOf(SpecNode(d), c), Supplied(d, c))
  {
  }

  lemma NodeHoldsTimes(d: Draft, c: Column)
    requires c == CreatedAt || c == UpdatedAt || c == DeletedAt || c == LastUsedAt || c == ExpiresAt ||
             c == RateLimitedAt || c == RateLimitResetAt || c == OverloadUntil || c == TempUnschedulableUntil ||
             c == SessionWindowStart || c == SessionWindowEnd
    ensures Holds(FieldOf(SpecNode(d), c), Supplied(d, c))
  {
  }

  lemma SpecNodeHolds(d: Draft, c: Column)
    requires !c.ID?
    ensures Holds(FieldOf(SpecNode(d), c), Supplied(d, c))
  {
    hide *;
    match c
    case ProxyID | ProxyFallbackOriginID | Concurrency | LoadFactor | Priority | RateMultiplier | AutoPauseOnExpired | Schedulable
      | ParentAccountID =>
      NodeHoldsNumbers(d, c);
    case CreatedAt | UpdatedAt | DeletedAt | LastUsedAt | ExpiresAt | RateLimitedAt | RateLimitResetAt | OverloadUntil | TempUnschedulableUntil
      | SessionWindowStart | SessionWindowEnd =>
      NodeHoldsTimes(d, c);
    case _ =>
      NodeHoldsTexts(d, c);
  }

  lemma NodeHolds(d: Draft, id: int, c: Column)
    requires !c.ID?
    ensures Holds(FieldOf(SpecNode(d).(id := id), c), Supplied(d, c))
  {
    hide *;
    SpecNodeHolds(d, c);
    IDIsOneField(SpecNode(d), id, c);
  }

  lemma NodeCarries(d: Draft, id: int)
    ensures Carries(SpecNode(d).(id := id), d)
  {
    hide SpecNode, FieldOf, Supplied, Holds;
    forall c: Column | !c.ID? ensures Holds(FieldOf(SpecNode(d).(id := id), c), Supplied(d, c)) {
      NodeHolds(d, id, c);
    }
  }

  // ----- the table

  /** The defaults of the table's columns. */
  function ColumnDefault(c: Column): Option<Value>
  {
    match c
    case Concurrency => Some(Number(3))
    case Priority => Some(Number(50))
    case RateMultiplier => Some(Fraction(1.0))
    case Status => Some(Words("active"))
    case AutoPauseOnExpired => Some(Truth(true))
    case Schedulable => Some(Truth(true))
    case QuotaDimension => Some(Words("global"))
    case _ => None
  }

  /** The columns that must not be NULL. */
  predicate Required(c: Column)
  {
    c in {CreatedAt, UpdatedAt, Name, Platform, Type, Credentials, Extra, Concurrency, Priority, RateMultiplier, Status,
          AutoPauseOnExpired, Schedulable, QuotaDimension}
  }

  lemma CompletedSupplies(d: Draft, c: Column)
    ensures Supplied(Completed(d), c) == if Supplied(d, c).Some? then Supplied(d, c) else ColumnDefault(c)
  {
  }

  lemma KeptByTable(d: Draft, c: Column)
    requires Storable(d) && Required(c)
    ensures Supplied(Completed(d), c).Some?
  {
    hide Completed;
    CompletedSupplies(d, c);
  }

  lemma TakenByTable(d: Draft)
    requires forall c :: Required(c) && ColumnDefault(c).None? ==> Supplied(d, c).Some?
    ensures Storable(d)
  {
    assert Required(CreatedAt) && Supplied(d, CreatedAt).Some?;
    assert Required(UpdatedAt) && Supplied(d, UpdatedAt).Some?;
    assert Required(Name) && Supplied(d, Name).Some?;
    assert Required(Platform) && Supplied(d, Platform).Some?;
    assert Required(Type) && Supplied(d, Type).Some?;
    assert Required(Credentials) && Supplied(d, Credentials).Some?;
    assert Required(Extra) && Supplied(d, Extra).Some?;
  }

  /** The table takes a draft if and only if no required column is left without a value. */
  lemma StorableExactly(d: Draft)
    ensures Storable(d) <==> forall c :: Required(c) ==> Supplied(Completed(d), c).Some?
  {
    hide *;
    if Storable(d) {
      forall c | Required(c) ensures Supplied(Completed(d), c).Some? {
        KeptByTable(d, c);
      }
    } else if forall c :: Required(c) ==> Supplied(Completed(d), c).Some? {
      forall c | Required(c) && ColumnDefault(c).None? ensures Supplied(d, c).Some? {
        CompletedSupplies(d, c);
      }
      TakenByTable(d);
    }
  }

  lemma NoDefaultLeft(d: Draft, c: Column)
    requires LeavesNoDefault(d) && ColumnDefault(c).Some?
    ensures Supplied(d, c).Some?
  {
  }

  lemma HaveDefaults()
    ensures ColumnDefault(Concurrency).Some? && ColumnDefault(Priority).Some? && ColumnDefault(RateMultiplier).Some?
    ensures ColumnDefault(Status).Some? && ColumnDefault(AutoPauseOnExpired).Some? && ColumnDefault(Schedulable).Some?
    ensures ColumnDefault(QuotaDimension).Some?
  {
  }

  lemma AllSupplied(d: Draft)
    requires Supplied(d, Concurrency).Some? && Supplied(d, Priority).Some? && Supplied(d, RateMultiplier).Some?
    requires Supplied(d, Status).Some? && Supplied(d, AutoPauseOnExpired).Some? && Supplied(d, Schedulable).Some?
    requires Supplied(d, QuotaDimension).Some?
    ensures LeavesNoDefault(d)
  {
  }

  /** A draft leaves nothing to the table's defaults if and only if it supplies every such column. */
  lemma LeavesNoDefaultExactly(d: Draft)
    ensures LeavesNoDefault(d) <==> forall c :: ColumnDefault(c).Some? ==> Supplied(d, c).Some?
  {
    hide *;
    if LeavesNoDefault(d) {
      forall c | ColumnDefault(c).Some? ensures Supplied(d, c).Some? {
        NoDefaultLeft(d, c);
      }
    } else if forall c :: ColumnDefault(c).Some? ==> Supplied(d, c).Some? {
      HaveDefaults();
      AllSupplied(d);
    }
  }

  /** Create then read: every supplied field of the draft comes back, every other one holds its
      column default or is zero, for any columns and whatever else was read before. */
  lemma SuppliedComesBack(d: Draft, id: int, cols: seq<Column>, c: Column, j: Json)
    requires Lossless(j) && Storable(d) && c in cols && !c.ID?
    ensures var values := ScanRow(cols, k => StoredCell(d, id, k, j));
            && values.Some? && |values.value| == |cols|
            && var read := AssignAll(ZERO_ROW, map[], cols, values.value, j);
            && read.error == None
            && Holds(FieldOf(read.row, c), if Supplied(d, c).Some? then Supplied(d, c) else ColumnDefault(c))
  {
    hide *;
    CreateReadRoundTrip(d, id, cols, j);
    MaskField(SpecNode(Completed(d)).(id := id), ColumnSet(cols), c);
    InColumnSet(cols, c);
    NodeHolds(Completed(d), id, c);
    CompletedSupplies(d, c);
  }

  lemma InColumnSet(cols: seq<Column>, c: Column)
    ensures c in ColumnSet(cols) <==> c in cols
  {
  }
}
