/** Writing an account row and reading it back: the scan targets scanValues picks,
    the column-by-column assignment of assignValues, and the cells createSpec sets. */
module AccountCodec {
  import opened Wrappers
  import opened AccountSchema

  /** A stored SQL value. */
  datatype Cell =
    | Null
    | IntCell(int64: int)
    | RealCell(float64: real)
    | BoolCell(flag: bool)
    | TextCell(text: string)
    | TimeCell(time: Time)
    | BytesCell(bytes: seq<nat>)

  /** The scan targets of database/sql that the generated code allocates. */
  datatype Holder =
    | NullInt64(valid: bool, int64: int)
    | NullFloat64(valid: bool, float64: real)
    | NullBool(valid: bool, flag: bool)
    | NullString(valid: bool, text: string)
    | NullTime(valid: bool, time: Time)
    | Bytes(bytes: seq<nat>)
    | UnknownType(cell: Cell)

  datatype CodecError =
    | MismatchedCount
    | UnexpectedType(column: Column)
    | UnmarshalFailed(column: Column)
  {
    predicate Names(c: Column)
    {
      match this
      case MismatchedCount => false
      case UnexpectedType(d) => d == c
      case UnmarshalFailed(d) => d == c
    }
  }

  /** encoding/json, left abstract. */
  datatype Json = Json(encode: Document -> seq<nat>, decode: seq<nat> -> Option<Document>)

  ghost predicate Lossless(j: Json)
  {
    forall d :: |j.encode(d)| > 0 && j.decode(j.encode(d)) == Some(d)
  }

  /** The empty scan target for one column. */
  function HolderFor(c: Column): Holder
  {
    match c
    case Credentials | Extra =>
      Bytes([])
    case AutoPauseOnExpired | Schedulable =>
      NullBool(false, false)
    case RateMultiplier =>
      NullFloat64(false, 0.0)
    case ID | ProxyID | ProxyFallbackOriginID | Concurrency | LoadFactor | Priority | ParentAccountID =>
      NullInt64(false, 0)
    case Name | Notes | Platform | Type | Status | ErrorMessage | TempUnschedulableReason | SessionWindowStatus | QuotaDimension =>
      NullString(false, "")
    case CreatedAt | UpdatedAt | DeletedAt | LastUsedAt | ExpiresAt | RateLimitedAt | RateLimitResetAt | OverloadUntil | TempUnschedulableUntil | SessionWindowStart | SessionWindowEnd =>
      NullTime(false, ZERO_TIME)
    case Other(_) =>
      UnknownType(Null)
  }

  /** What the driver stores into a scan target; None when the types do not fit. */
  function Fill(h: Holder, cell: Cell): Option<Holder>
  {
    match (h, cell)
    case (UnknownType(_), _) => Some(UnknownType(cell))
    case (NullInt64(_, _), IntCell(n)) => Some(NullInt64(true, n))
    case (NullFloat64(_, _), RealCell(x)) => Some(NullFloat64(true, x))
    case (NullBool(_, _), BoolCell(b)) => Some(NullBool(true, b))
    case (NullString(_, _), TextCell(s)) => Some(NullString(true, s))
    case (NullTime(_, _), TimeCell(t)) => Some(NullTime(true, t))
    case (Bytes(_), BytesCell(b)) => Some(Bytes(b))
    case (_, Null) => Some(h)
    case _ => None
  }

  function Decoded(c: Column, h: Holder, j: Json, was: Document): Result<Document, CodecError>
    requires h.Bytes?
  {
    if |h.bytes| == 0 then Success(was)
    else match j.decode(h.bytes)
      case Some(d) => Success(d)
      case None => Failure(UnmarshalFailed(c))
  }

  /** One case of the switch in assignValues. */
  function AssignColumn(r: Row, c: Column, h: Holder, j: Json): Result<Row, CodecError>
  {
    match c
    case ID =>
      if !h.NullInt64? then Failure(UnexpectedType(c)) else Success(r.(id := h.int64))
    case CreatedAt =>
      if !h.NullTime? then Failure(UnexpectedType(c))
      else Success(if h.valid then r.(createdAt := h.time) else r)
    case UpdatedAt =>
      if !h.NullTime? then Failure(UnexpectedType(c))
      else Success(if h.valid then r.(updatedAt := h.time) else r)
    case DeletedAt =>
      if !h.NullTime? then Failure(UnexpectedType(c))
      else Success(if h.valid then r.(deletedAt := Some(h.time)) else r)
    case Name =>
      if !h.NullString? then Failure(UnexpectedType(c))
      else Success(if h.valid then r.(name := h.text) else r)
    case Notes =>
      if !h.NullString? then Failure(UnexpectedType(c))
      else Success(if h.valid then r.(notes := Some(h.text)) else r)
    case Platform =>
      if !h.NullString? then Failure(UnexpectedType(c))
      else Success(if h.valid then r.(platform := h.text) else r)
    case Type =>
      if !h.NullString? then Failure(UnexpectedType(c))
      else Success(if h.valid then r.(kind := h.text) else r)
    case Credentials =>
      if !h.Bytes? then Failure(UnexpectedType(c))
      else match Decoded(c, h, j, r.credentials) { case Success(d) => Success(r.(credentials := d)) case Failure(e) => Failure(e) }
    case Extra =>
      if !h.Bytes? then Failure(UnexpectedType(c))
      else match Decoded(c, h, j, r.extra) { case Success(d) => Success(r.(extra := d)) case Failure(e) => Failure(e) }
    case ProxyID =>
      if !h.NullInt64? then Failure(UnexpectedType(c))
      else Success(if h.valid then r.(proxyID := Some(h.int64)) else r)
    case ProxyFallbackOriginID =>
      if !h.NullInt64? then Failure(UnexpectedType(c))
      else Success(if h.valid then r.(proxyFallbackOriginID := Some(h.int64)) else r)
    case Concurrency =>
      if !h.NullInt64? then Failure(UnexpectedType(c))
      else Success(if h.valid then r.(concurrency := h.int64) else r)
    case LoadFactor =>
      if !h.NullInt64? then Failure(UnexpectedType(c))
      else Success(if h.valid then r.(loadFactor := Some(h.int64)) else r)
    case Priority =>
      if !h.NullInt64? then Failure(UnexpectedType(c))
      else Success(if h.valid then r.(priority := h.int64) else r)
    case RateMultiplier =>
      if !h.NullFloat64? then Failure(UnexpectedType(c))
      else Success(if h.valid then r.(rateMultiplier := h.float64) else r)
    case Status =>
      if !h.NullString? then Failure(UnexpectedType(c))
      else Success(if h.valid then r.(status := h.text) else r)
    case ErrorMessage =>
      if !h.NullString? then Failure(UnexpectedType(c))
      else Success(if h.valid then r.(errorMessage := Some(h.text)) else r)
    case LastUsedAt =>
      if !h.NullTime? then Failure(UnexpectedType(c))
      else Success(if h.valid then r.(lastUsedAt := Some(h.time)) else r)
    case ExpiresAt =>
      if !h.NullTime? then Failure(UnexpectedType(c))
      else Success(if h.valid then r.(expiresAt := Some(h.time)) else r)
    case AutoPauseOnExpired =>
      if !h.NullBool? then Failure(UnexpectedType(c))
      else Success(if h.valid then r.(autoPauseOnExpired := h.flag) else r)
    case Schedulable =>
      if !h.NullBool? then Failure(UnexpectedType(c))
      else Success(if h.valid then r.(schedulable := h.flag) else r)
    case RateLimitedAt =>
      if !h.NullTime? then Failure(UnexpectedType(c))
      else Success(if h.valid then r.(rateLimitedAt := Some(h.time)) else r)
    case RateLimitResetAt =>
      if !h.NullTime? then Failure(UnexpectedType(c))
      else Success(if h.valid then r.(rateLimitResetAt := Some(h.time)) else r)
    case OverloadUntil =>
      if !h.NullTime? then Failure(UnexpectedType(c))
      else Success(if h.valid then r.(overloadUntil := Some(h.time)) else r)
    case TempUnschedulableUntil =>
      if !h.NullTime? then Failure(UnexpectedType(c))
      else Success(if h.valid then r.(tempUnschedulableUntil := Some(h.time)) else r)
    case TempUnschedulableReason =>
      if !h.NullString? then Failure(UnexpectedType(c))
      else Success(if h.valid then r.(tempUnschedulableReason := Some(h.text)) else r)
    case SessionWindowStart =>
      if !h.NullTime? then Failure(UnexpectedType(c))
      else Success(if h.valid then r.(sessionWindowStart := Some(h.time)) else r)
    case SessionWindowEnd =>
      if !h.NullTime? then Failure(UnexpectedType(c))
      else Success(if h.valid then r.(sessionWindowEnd := Some(h.time)) else r)
    case SessionWindowStatus =>
      if !h.NullString? then Failure(UnexpectedType(c))
      else Success(if h.valid then r.(sessionWindowStatus := Some(h.text)) else r)
    case ParentAccountID =>
      if !h.NullInt64? then Failure(UnexpectedType(c))
      else Success(if h.valid then r.(parentAccountID := Some(h.int64)) else r)
    case QuotaDimension =>
      if !h.NullString? then Failure(UnexpectedType(c))
      else Success(if h.valid then r.(quotaDimension := h.text) else r)
    case Other(_) =>
      Success(r)
  }

  /** One field of the entity with its Go type; pointers are the Opt constructors. */
  datatype Field =
    | NoField
    | Num(n: int)
    | OptNum(on: Option<int>)
    | Ratio(x: real)
    | Flag(flag: bool)
    | Text(s: string)
    | OptText(os: Option<string>)
    | Instant(t: Time)
    | OptInstant(ot: Option<Time>)
    | Doc(d: Document)

  function FieldOf(r: Row, c: Column): Field
  {
    match c
    case ID => Num(r.id)
    case CreatedAt => Instant(r.createdAt)
    case UpdatedAt => Instant(r.updatedAt)
    case DeletedAt => OptInstant(r.deletedAt)
    case Name => Text(r.name)
    case Notes => OptText(r.notes)
    case Platform => Text(r.platform)
    case Type => Text(r.kind)
    case Credentials => Doc(r.credentials)
    case Extra => Doc(r.extra)
    case ProxyID => OptNum(r.proxyID)
    case ProxyFallbackOriginID => OptNum(r.proxyFallbackOriginID)
    case Concurrency => Num(r.concurrency)
    case LoadFactor => OptNum(r.loadFactor)
    case Priority => Num(r.priority)
    case RateMultiplier => Ratio(r.rateMultiplier)
    case Status => Text(r.status)
    case ErrorMessage => OptText(r.errorMessage)
    case LastUsedAt => OptInstant(r.lastUsedAt)
    case ExpiresAt => OptInstant(r.expiresAt)
    case AutoPauseOnExpired => Flag(r.autoPauseOnExpired)
    case Schedulable => Flag(r.schedulable)
    case RateLimitedAt => OptInstant(r.rateLimitedAt)
    case RateLimitResetAt => OptInstant(r.rateLimitResetAt)
    case OverloadUntil => OptInstant(r.overloadUntil)
    case TempUnschedulableUntil => OptInstant(r.tempUnschedulableUntil)
    case TempUnschedulableReason => OptText(r.tempUnschedulableReason)
    case SessionWindowStart => OptInstant(r.sessionWindowStart)
    case SessionWindowEnd => OptInstant(r.sessionWindowEnd)
    case SessionWindowStatus => OptText(r.sessionWindowStatus)
    case ParentAccountID => OptNum(r.parentAccountID)
    case QuotaDimension => Text(r.quotaDimension)
    case Other(_) => NoField
  }

  predicate IsZero(f: Field)
  {
    match f
    case NoField => true
    case Num(n) => n == 0
    case OptNum(v) => v == None
    case Ratio(x) => x == 0.0
    case Flag(b) => !b
    case Text(s) => s == ""
    case OptText(v) => v == None
    case Instant(t) => t == ZERO_TIME
    case OptInstant(v) => v == None
    case Doc(d) => d == NilMap
  }

  /** The cell that stores a field: NULL stands for the zero value. */
  predicate StandsFor(cell: Cell, f: Field, j: Json)
  {
    if cell.Null? then IsZero(f)
    else match f
      case NoField => true
      case Num(n) => cell == IntCell(n)
      case OptNum(v) => v.Some? && cell == IntCell(v.value)
      case Ratio(x) => cell == RealCell(x)
      case Flag(b) => cell == BoolCell(b)
      case Text(s) => cell == TextCell(s)
      case OptText(v) => v.Some? && cell == TextCell(v.value)
      case Instant(t) => cell == TimeCell(t)
      case OptInstant(v) => v.Some? && cell == TimeCell(v.value)
      case Doc(d) => cell == BytesCell(j.encode(d))
  }

  predicate Represents(cell: Cell, r: Row, c: Column, j: Json)
  {
    StandsFor(cell, FieldOf(r, c), j)
  }

  /** The cell createSpec writes for a column; NULL when the setter was not called.
      The two foreign keys come from the unique edges proxy and parent. */
  function SpecCell(d: Draft, c: Column, j: Json): Cell
  {
    match c
    case ID => Null
    case CreatedAt => (match d.createdAt case Some(v) => TimeCell(v) case None => Null)
    case UpdatedAt => (match d.updatedAt case Some(v) => TimeCell(v) case None => Null)
    case DeletedAt => (match d.deletedAt case Some(v) => TimeCell(v) case None => Null)
    case Name => (match d.name case Some(v) => TextCell(v) case None => Null)
    case Notes => (match d.notes case Some(v) => TextCell(v) case None => Null)
    case Platform => (match d.platform case Some(v) => TextCell(v) case None => Null)
    case Type => (match d.kind case Some(v) => TextCell(v) case None => Null)
    case Credentials => (match d.credentials case Some(v) => BytesCell(j.encode(v)) case None => Null)
    case Extra => (match d.extra case Some(v) => BytesCell(j.encode(v)) case None => Null)
    case ProxyID => (match d.proxy case Some(v) => IntCell(v) case None => Null)
    case ProxyFallbackOriginID => (match d.proxyFallbackOriginID case Some(v) => IntCell(v) case None => Null)
    case Concurrency => (match d.concurrency case Some(v) => IntCell(v) case None => Null)
    case LoadFactor => (match d.loadFactor case Some(v) => IntCell(v) case None => Null)
    case Priority => (match d.priority case Some(v) => IntCell(v) case None => Null)
    case RateMultiplier => (match d.rateMultiplier case Some(v) => RealCell(v) case None => Null)
    case Status => (match d.status case Some(v) => TextCell(v) case None => Null)
    case ErrorMessage => (match d.errorMessage case Some(v) => TextCell(v) case None => Null)
    case LastUsedAt => (match d.lastUsedAt case Some(v) => TimeCell(v) case None => Null)
    case ExpiresAt => (match d.expiresAt case Some(v) => TimeCell(v) case None => Null)
    case AutoPauseOnExpired => (match d.autoPauseOnExpired case Some(v) => BoolCell(v) case None => Null)
    case Schedulable => (match d.schedulable case Some(v) => BoolCell(v) case None => Null)
    case RateLimitedAt => (match d.rateLimitedAt case Some(v) => TimeCell(v) case None => Null)
    case RateLimitResetAt => (match d.rateLimitResetAt case Some(v) => TimeCell(v) case None => Null)
    case OverloadUntil => (match d.overloadUntil case Some(v) => TimeCell(v) case None => Null)
    case TempUnschedulableUntil => (match d.tempUnschedulableUntil case Some(v) => TimeCell(v) case None => Null)
    case TempUnschedulableReason => (match d.tempUnschedulableReason case Some(v) => TextCell(v) case None => Null)
    case SessionWindowStart => (match d.sessionWindowStart case Some(v) => TimeCell(v) case None => Null)
    case SessionWindowEnd => (match d.sessionWindowEnd case Some(v) => TimeCell(v) case None => Null)
    case SessionWindowStatus => (match d.sessionWindowStatus case Some(v) => TextCell(v) case None => Null)
    case ParentAccountID => (match d.parent case Some(v) => IntCell(v) case None => Null)
    case QuotaDimension => (match d.quotaDimension case Some(v) => TextCell(v) case None => Null)
    case Other(_) => Null
  }

  /** The node createSpec returns beside the spec; its ID is filled in after the insert. */
  function SpecNode(d: Draft): Row
  {
    Row(
      0,
      d.createdAt.GetOr(ZERO_TIME),
      d.updatedAt.GetOr(ZERO_TIME),
      d.deletedAt,
      d.name.GetOr(""),
      d.notes,
      d.platform.GetOr(""),
      d.kind.GetOr(""),
      d.credentials.GetOr(NilMap),
      d.extra.GetOr(NilMap),
      d.proxy,
      d.proxyFallbackOriginID,
      d.concurrency.GetOr(0),
      d.loadFactor,
      d.priority.GetOr(0),
      d.rateMultiplier.GetOr(0.0),
      d.status.GetOr(""),
      d.errorMessage,
      d.lastUsedAt,
      d.expiresAt,
      d.autoPauseOnExpired.GetOr(false),
      d.schedulable.GetOr(false),
      d.rateLimitedAt,
      d.rateLimitResetAt,
      d.overloadUntil,
      d.tempUnschedulableUntil,
      d.tempUnschedulableReason,
      d.sessionWindowStart,
      d.sessionWindowEnd,
      d.sessionWindowStatus,
      d.parent,
      d.quotaDimension.GetOr(""))
  }

  /** The canonical cell of a stored row. */
  function RowCell(r: Row, c: Column, j: Json): Cell
  {
    match c
    case ID => IntCell(r.id)
    case CreatedAt => TimeCell(r.createdAt)
    case UpdatedAt => TimeCell(r.updatedAt)
    case DeletedAt => (match r.deletedAt case Some(v) => TimeCell(v) case None => Null)
    case Name => TextCell(r.name)
    case Notes => (match r.notes case Some(v) => TextCell(v) case None => Null)
    case Platform => TextCell(r.platform)
    case Type => TextCell(r.kind)
    case Credentials => BytesCell(j.encode(r.credentials))
    case Extra => BytesCell(j.encode(r.extra))
    case ProxyID => (match r.proxyID case Some(v) => IntCell(v) case None => Null)
    case ProxyFallbackOriginID => (match r.proxyFallbackOriginID case Some(v) => IntCell(v) case None => Null)
    case Concurrency => IntCell(r.concurrency)
    case LoadFactor => (match r.loadFactor case Some(v) => IntCell(v) case None => Null)
    case Priority => IntCell(r.priority)
    case RateMultiplier => RealCell(r.rateMultiplier)
    case Status => TextCell(r.status)
    case ErrorMessage => (match r.errorMessage case Some(v) => TextCell(v) case None => Null)
    case LastUsedAt => (match r.lastUsedAt case Some(v) => TimeCell(v) case None => Null)
    case ExpiresAt => (match r.expiresAt case Some(v) => TimeCell(v) case None => Null)
    case AutoPauseOnExpired => BoolCell(r.autoPauseOnExpired)
    case Schedulable => BoolCell(r.schedulable)
    case RateLimitedAt => (match r.rateLimitedAt case Some(v) => TimeCell(v) case None => Null)
    case RateLimitResetAt => (match r.rateLimitResetAt case Some(v) => TimeCell(v) case None => Null)
    case OverloadUntil => (match r.overloadUntil case Some(v) => TimeCell(v) case None => Null)
    case TempUnschedulableUntil => (match r.tempUnschedulableUntil case Some(v) => TimeCell(v) case None => Null)
    case TempUnschedulableReason => (match r.tempUnschedulableReason case Some(v) => TextCell(v) case None => Null)
    case SessionWindowStart => (match r.sessionWindowStart case Some(v) => TimeCell(v) case None => Null)
    case SessionWindowEnd => (match r.sessionWindowEnd case Some(v) => TimeCell(v) case None => Null)
    case SessionWindowStatus => (match r.sessionWindowStatus case Some(v) => TextCell(v) case None => Null)
    case ParentAccountID => (match r.parentAccountID case Some(v) => IntCell(v) case None => Null)
    case QuotaDimension => TextCell(r.quotaDimension)
    case Other(_) => Null
  }

  lemma SameIdentity(a: Row, b: Row)
    requires forall c :: FieldOf(a, c) == FieldOf(b, c)
    ensures a.id == b.id && a.createdAt == b.createdAt && a.updatedAt == b.updatedAt && a.deletedAt == b.deletedAt
    ensures a.name == b.name && a.notes == b.notes && a.platform == b.platform && a.kind == b.kind
    ensures a.credentials == b.credentials && a.extra == b.extra
  {
    assert FieldOf(a, ID) == FieldOf(b, ID);
    assert FieldOf(a, CreatedAt) == FieldOf(b, CreatedAt);
    assert FieldOf(a, UpdatedAt) == FieldOf(b, UpdatedAt);
    assert FieldOf(a, DeletedAt) == FieldOf(b, DeletedAt);
    assert FieldOf(a, Name) == FieldOf(b, Name);
    assert FieldOf(a, Notes) == FieldOf(b, Notes);
    assert FieldOf(a, Platform) == FieldOf(b, Platform);
    assert FieldOf(a, Type) == FieldOf(b, Type);
    assert FieldOf(a, Credentials) == FieldOf(b, Credentials);
    assert FieldOf(a, Extra) == FieldOf(b, Extra);
  }

  lemma SameSettings(a: Row, b: Row)
    requires forall c :: FieldOf(a, c) == FieldOf(b, c)
    ensures a.proxyID == b.proxyID && a.proxyFallbackOriginID == b.proxyFallbackOriginID && a.concurrency == b.concurrency && a.loadFactor == b.loadFactor
    ensures a.priority == b.priority && a.rateMultiplier == b.rateMultiplier && a.status == b.status && a.errorMessage == b.errorMessage
  {
    assert FieldOf(a, ProxyID) == FieldOf(b, ProxyID);
    assert FieldOf(a, ProxyFallbackOriginID) == FieldOf(b, ProxyFallbackOriginID);
    assert FieldOf(a, Concurrency) == FieldOf(b, Concurrency);
    assert FieldOf(a, LoadFactor) == FieldOf(b, LoadFactor);
    assert FieldOf(a, Priority) == FieldOf(b, Priority);
    assert FieldOf(a, RateMultiplier) == FieldOf(b, RateMultiplier);
    assert FieldOf(a, Status) == FieldOf(b, Status);
    assert FieldOf(a, ErrorMessage) == FieldOf(b, ErrorMessage);
  }

  lemma SameStatus(a: Row, b: Row)
    requires forall c :: FieldOf(a, c) == FieldOf(b, c)
    ensures a.lastUsedAt == b.lastUsedAt && a.expiresAt == b.expiresAt && a.autoPauseOnExpired == b.autoPauseOnExpired && a.schedulable == b.schedulable
    ensures a.rateLimitedAt == b.rateLimitedAt
  {
    assert FieldOf(a, LastUsedAt) == FieldOf(b, LastUsedAt);
    assert FieldOf(a, ExpiresAt) == FieldOf(b, ExpiresAt);
    assert FieldOf(a, AutoPauseOnExpired) == FieldOf(b, AutoPauseOnExpired);
    assert FieldOf(a, Schedulable) == FieldOf(b, Schedulable);
    assert FieldOf(a, RateLimitedAt) == FieldOf(b, RateLimitedAt);
  }

  lemma SameLimits(a: Row, b: Row)
    requires forall c :: FieldOf(a, c) == FieldOf(b, c)
    ensures a.rateLimitResetAt == b.rateLimitResetAt && a.overloadUntil == b.overloadUntil && a.tempUnschedulableUntil == b.tempUnschedulableUntil && a.tempUnschedulableReason == b.tempUnschedulableReason
    ensures a.sessionWindowStart == b.sessionWindowStart
  {
    assert FieldOf(a, RateLimitResetAt) == FieldOf(b, RateLimitResetAt);
    assert FieldOf(a, OverloadUntil) == FieldOf(b, OverloadUntil);
    assert FieldOf(a, TempUnschedulableUntil) == FieldOf(b, TempUnschedulableUntil);
    assert FieldOf(a, TempUnschedulableReason) == FieldOf(b, TempUnschedulableReason);
    assert FieldOf(a, SessionWindowStart) == FieldOf(b, SessionWindowStart);
  }

  lemma SameSession(a: Row, b: Row)
    requires forall c :: FieldOf(a, c) == FieldOf(b, c)
    ensures a.sessionWindowEnd == b.sessionWindowEnd && a.sessionWindowStatus == b.sessionWindowStatus && a.parentAccountID == b.parentAccountID && a.quotaDimension == b.quotaDimension
  {
    assert FieldOf(a, SessionWindowEnd) == FieldOf(b, SessionWindowEnd);
    assert FieldOf(a, SessionWindowStatus) == FieldOf(b, SessionWindowStatus);
    assert FieldOf(a, ParentAccountID) == FieldOf(b, ParentAccountID);
    assert FieldOf(a, QuotaDimension) == FieldOf(b, QuotaDimension);
  }

  lemma SameFields(a: Row, b: Row)
    requires forall c :: FieldOf(a, c) == FieldOf(b, c)
    ensures a == b
  {
    SameIdentity(a, b);
    SameSettings(a, b);
    SameStatus(a, b);
    SameLimits(a, b);
    SameSession(a, b);
  }

  /** assignValues and the row as it stands when the loop stops. */
  datatype Scanned = Scanned(row: Row, selected: map<string, Holder>, error: Option<CodecError>)

  function AssignAll(row: Row, selected: map<string, Holder>, cols: seq<Column>, values: seq<Holder>, j: Json): Scanned
    requires |cols| <= |values|
    decreases |cols|
  {
    if cols == [] then Scanned(row, selected, None)
    else
      match AssignColumn(row, cols[0], values[0], j)
      case Failure(e) => Scanned(row, selected, Some(e))
      case Success(r) =>
        var sel := if cols[0].Other? then selected[cols[0].name := values[0]] else selected;
        AssignAll(r, sel, cols[1..], values[1..], j)
  }

  /** Scanning one database row into the targets that scanValues allocated. */
  function ScanRow(cols: seq<Column>, cells: Column -> Cell): Option<seq<Holder>>
  {
    if cols == [] then Some([])
    else
      match (Fill(HolderFor(cols[0]), cells(cols[0])), ScanRow(cols[1..], cells))
      case (Some(h), Some(rest)) => Some([h] + rest)
      case _ => None
  }

  lemma NameTouchesOnly(m: Row, c: Column, h: Holder, j: Json, d: Column)
    requires c != d && AssignColumn(m, c, h, j).Success?
    requires c == Name || c == Notes || c == Platform || c == Type
    ensures FieldOf(AssignColumn(m, c, h, j).value, d) == FieldOf(m, d)
  {
  }

  lemma StatusTouchesOnly(m: Row, c: Column, h: Holder, j: Json, d: Column)
    requires c != d && AssignColumn(m, c, h, j).Success?
    requires c == Status || c == ErrorMessage || c == TempUnschedulableReason || c == SessionWindowStatus || c == QuotaDimension
    ensures FieldOf(AssignColumn(m, c, h, j).value, d) == FieldOf(m, d)
  {
  }

  lemma RecordTimeTouchesOnly(m: Row, c: Column, h: Holder, j: Json, d: Column)
    requires c != d && AssignColumn(m, c, h, j).Success?
    requires c == CreatedAt || c == UpdatedAt || c == DeletedAt
    ensures FieldOf(AssignColumn(m, c, h, j).value, d) == FieldOf(m, d)
  {
  }

  lemma UseTimeTouchesOnly(m: Row, c: Column, h: Holder, j: Json, d: Column)
    requires c != d && AssignColumn(m, c, h, j).Success?
    requires c == LastUsedAt || c == ExpiresAt
    ensures FieldOf(AssignColumn(m, c, h, j).value, d) == FieldOf(m, d)
  {
  }

  lemma LimitTimeTouchesOnly(m: Row, c: Column, h: Holder, j: Json, d: Column)
    requires c != d && AssignColumn(m, c, h, j).Success?
    requires c == RateLimitedAt || c == RateLimitResetAt || c == OverloadUntil
    ensures FieldOf(AssignColumn(m, c, h, j).value, d) == FieldOf(m, d)
  {
  }

  lemma SessionTimeTouchesOnly(m: Row, c: Column, h: Holder, j: Json, d: Column)
    requires c != d && AssignColumn(m, c, h, j).Success?
    requires c == TempUnschedulableUntil || c == SessionWindowStart || c == SessionWindowEnd
    ensures FieldOf(AssignColumn(m, c, h, j).value, d) == FieldOf(m, d)
  {
  }

  lemma KeyTouchesOnly(m: Row, c: Column, h: Holder, j: Json, d: Column)
    requires c != d && AssignColumn(m, c, h, j).Success?
    requires c == ID || c == ProxyID || c == ProxyFallbackOriginID || c == ParentAccountID
    ensures FieldOf(AssignColumn(m, c, h, j).value, d) == FieldOf(m, d)
  {
  }

  lemma CapacityTouchesOnly(m: Row, c: Column, h: Holder, j: Json, d: Column)
    requires c != d && AssignColumn(m, c, h, j).Success?
    requires c == Concurrency || c == LoadFactor || c == Priority
    ensures FieldOf(AssignColumn(m, c, h, j).value, d) == FieldOf(m, d)
  {
  }

  lemma FlagTouchesOnly(m: Row, c: Column, h: Holder, j: Json, d: Column)
    requires c != d && AssignColumn(m, c, h, j).Success?
    requires c == RateMultiplier || c == AutoPauseOnExpired || c == Schedulable
    ensures FieldOf(AssignColumn(m, c, h, j).value, d) == FieldOf(m, d)
  {
  }

  lemma DocumentTouchesOnly(m: Row, c: Column, h: Holder, j: Json, d: Column)
    requires c != d && AssignColumn(m, c, h, j).Success?
    requires c == Credentials || c == Extra || c.Other?
    ensures FieldOf(AssignColumn(m, c, h, j).value, d) == FieldOf(m, d)
  {
  }

  /** Assigning one column leaves every other field alone. */
  lemma AssignTouchesOnly(m: Row, c: Column, h: Holder, j: Json, d: Column)
    requires c != d && AssignColumn(m, c, h, j).Success?
    ensures FieldOf(AssignColumn(m, c, h, j).value, d) == FieldOf(m, d)
  {
    hide *;
    match c
    case Name | Notes | Platform | Type =>
      NameTouchesOnly(m, c, h, j, d);
    case Status | ErrorMessage | TempUnschedulableReason | SessionWindowStatus | QuotaDimension =>
      StatusTouchesOnly(m, c, h, j, d);
    case CreatedAt | UpdatedAt | DeletedAt =>
      RecordTimeTouchesOnly(m, c, h, j, d);
    case LastUsedAt | ExpiresAt =>
      UseTimeTouchesOnly(m, c, h, j, d);
    case RateLimitedAt | RateLimitResetAt | OverloadUntil =>
      LimitTimeTouchesOnly(m, c, h, j, d);
    case TempUnschedulableUntil | SessionWindowStart | SessionWindowEnd =>
      SessionTimeTouchesOnly(m, c, h, j, d);
    case ID | ProxyID | ProxyFallbackOriginID | ParentAccountID =>
      KeyTouchesOnly(m, c, h, j, d);
    case Concurrency | LoadFactor | Priority =>
      CapacityTouchesOnly(m, c, h, j, d);
    case RateMultiplier | AutoPauseOnExpired | Schedulable =>
      FlagTouchesOnly(m, c, h, j, d);
    case _ =>
      DocumentTouchesOnly(m, c, h, j, d);
  }

  /** What storing a scanned value does to a field of a given type. */
  function Absorb(was: Field, h: Holder, c: Column, j: Json): Result<Field, CodecError>
  {
    match (was, h)
    case (NoField, _) => Success(NoField)
    case (Num(_), NullInt64(valid, n)) => Success(if valid || c.ID? then Num(n) else was)
    case (OptNum(_), NullInt64(valid, n)) => Success(if valid then OptNum(Some(n)) else was)
    case (Ratio(_), NullFloat64(valid, x)) => Success(if valid then Ratio(x) else was)
    case (Flag(_), NullBool(valid, b)) => Success(if valid then Flag(b) else was)
    case (Text(_), NullString(valid, s)) => Success(if valid then Text(s) else was)
    case (OptText(_), NullString(valid, s)) => Success(if valid then OptText(Some(s)) else was)
    case (Instant(_), NullTime(valid, t)) => Success(if valid then Instant(t) else was)
    case (OptInstant(_), NullTime(valid, t)) => Success(if valid then OptInstant(Some(t)) else was)
    case (Doc(d), Bytes(_)) =>
      (match Decoded(c, h, j, d) case Success(v) => Success(Doc(v)) case Failure(e) => Failure(e))
    case _ => Failure(UnexpectedType(c))
  }

  lemma AssignAbsorbsNumbers(m: Row, c: Column, h: Holder, j: Json)
    requires c == ID || c == ProxyID || c == ProxyFallbackOriginID || c == Concurrency || c == LoadFactor ||
             c == Priority || c == RateMultiplier || c == AutoPauseOnExpired || c == Schedulable ||
             c == ParentAccountID
    ensures match AssignColumn(m, c, h, j)
            case Success(next) => Absorb(FieldOf(m, c), h, c, j) == Success(FieldOf(next, c))
            case Failure(e) => Absorb(FieldOf(m, c), h, c, j) == Failure(e)
  {
  }

  lemma AssignAbsorbsTexts(m: Row, c: Column, h: Holder, j: Json)
    requires c == Name || c == Notes || c == Platform || c == Type || c == Credentials || c == Extra ||
             c == Status || c == ErrorMessage || c == TempUnschedulableReason || c == SessionWindowStatus ||
             c == QuotaDimension || c.Other?
    ensures match AssignColumn(m, c, h, j)
            case Success(next) => Absorb(FieldOf(m, c), h, c, j) == Success(FieldOf(next, c))
            case Failure(e) => Absorb(FieldOf(m, c), h, c, j) == Failure(e)
  {
  }

  lemma AssignAbsorbsTimes(m: Row, c: Column, h: Holder, j: Json)
    requires c == CreatedAt || c == UpdatedAt || c == DeletedAt || c == LastUsedAt || c == ExpiresAt ||
             c == RateLimitedAt || c == RateLimitResetAt || c == OverloadUntil || c == TempUnschedulableUntil ||
             c == SessionWindowStart || c == SessionWindowEnd
    ensures match AssignColumn(m, c, h, j)
            case Success(next) => Absorb(FieldOf(m, c), h, c, j) == Success(FieldOf(next, c))
            case Failure(e) => Absorb(FieldOf(m, c), h, c, j) == Failure(e)
  {
  }

  /** Each column is written through its own type: a fitting value lands in its own field,
      anything else is a type error naming the column. */
  lemma AssignAbsorbs(m: Row, c: Column, h: Holder, j: Json)
    ensures match AssignColumn(m, c, h, j)
            case Success(next) => Absorb(FieldOf(m, c), h, c, j) == Success(FieldOf(next, c))
            case Failure(e) => Absorb(FieldOf(m, c), h, c, j) == Failure(e)
  {
    hide *;
    match c
    case ID | ProxyID | ProxyFallbackOriginID | Concurrency | LoadFactor | Priority | RateMultiplier | AutoPauseOnExpired | Schedulable | ParentAccountID =>
      AssignAbsorbsNumbers(m, c, h, j);
    case CreatedAt | UpdatedAt | DeletedAt | LastUsedAt | ExpiresAt | RateLimitedAt | RateLimitResetAt | OverloadUntil | TempUnschedulableUntil | SessionWindowStart | SessionWindowEnd =>
      AssignAbsorbsTimes(m, c, h, j);
    case _ =>
      AssignAbsorbsTexts(m, c, h, j);
  }

  /** The scan target and the field have the same type, column by column. */
  predicate Fits(f: Field, h: Holder)
  {
    match f
    case NoField => h.UnknownType?
    case Num(_) | OptNum(_) => h == NullInt64(false, 0)
    case Ratio(_) => h == NullFloat64(false, 0.0)
    case Flag(_) => h == NullBool(false, false)
    case Text(_) | OptText(_) => h == NullString(false, "")
    case Instant(_) | OptInstant(_) => h == NullTime(false, ZERO_TIME)
    case Doc(_) => h == Bytes([])
  }

  lemma HolderFits(r: Row, c: Column)
    ensures Fits(FieldOf(r, c), HolderFor(c))
  {
  }

  predicate SameType(f: Field, g: Field)
  {
    && (f.NoField? <==> g.NoField?)
    && (f.Num? <==> g.Num?)
    && (f.OptNum? <==> g.OptNum?)
    && (f.Ratio? <==> g.Ratio?)
    && (f.Flag? <==> g.Flag?)
    && (f.Text? <==> g.Text?)
    && (f.OptText? <==> g.OptText?)
    && (f.Instant? <==> g.Instant?)
    && (f.OptInstant? <==> g.OptInstant?)
  }

  lemma ColumnType(a: Row, b: Row, c: Column)
    ensures SameType(FieldOf(a, c), FieldOf(b, c))
  {
  }

  lemma ZeroFields(c: Column)
    ensures IsZero(FieldOf(ZERO_ROW, c))
  {
  }

  lemma AbsorbStored(was: Field, f: Field, target: Holder, cell: Cell, c: Column, j: Json)
    requires Lossless(j) && StandsFor(cell, f, j) && Fits(f, target)
    requires SameType(was, f) && (IsZero(was) || was == f)
    ensures Fill(target, cell).Some? && Absorb(was, Fill(target, cell).value, c, j) == Success(f)
  {
  }

  /** Assigning the value scanned from a cell yields the field the cell stands for. */
  lemma AssignReads(m: Row, r: Row, c: Column, cell: Cell, j: Json)
    requires Represents(cell, r, c, j) && Lossless(j)
    requires FieldOf(m, c) == FieldOf(ZERO_ROW, c) || FieldOf(m, c) == FieldOf(r, c)
    ensures Fill(HolderFor(c), cell).Some?
    ensures AssignColumn(m, c, Fill(HolderFor(c), cell).value, j).Success?
    ensures FieldOf(AssignColumn(m, c, Fill(HolderFor(c), cell).value, j).value, c) == FieldOf(r, c)
  {
    hide AssignColumn, FieldOf, HolderFor, Fill, Absorb, Fits, SameType, StandsFor, IsZero;
    HolderFits(r, c);
    ColumnType(m, r, c);
    ZeroFields(c);
    AbsorbStored(FieldOf(m, c), FieldOf(r, c), HolderFor(c), cell, c, j);
    AssignAbsorbs(m, c, Fill(HolderFor(c), cell).value, j);
  }

  lemma MaskField(r: Row, cols: set<Column>, c: Column)
    ensures FieldOf(Mask(r, cols), c) == FieldOf(if c in cols then r else ZERO_ROW, c)
  {
  }

  lemma Step(r: Row, seen: set<Column>, c: Column, cell: Cell, j: Json)
    requires Represents(cell, r, c, j) && Lossless(j)
    ensures Fill(HolderFor(c), cell).Some?
    ensures AssignColumn(Mask(r, seen), c, Fill(HolderFor(c), cell).value, j) == Success(Mask(r, seen + {c}))
  {
    hide *;
    MaskField(r, seen, c);
    AssignReads(Mask(r, seen), r, c, cell, j);
    var h := Fill(HolderFor(c), cell).value;
    var next := AssignColumn(Mask(r, seen), c, h, j).value;
    forall d ensures FieldOf(next, d) == FieldOf(Mask(r, seen + {c}), d) {
      MaskField(r, seen + {c}, d);
      if d != c {
        AssignTouchesOnly(Mask(r, seen), c, h, j, d);
        MaskField(r, seen, d);
      }
    }
    SameFields(next, Mask(r, seen + {c}));
  }

  /** Reading a row column by column, in any order and with repetitions, rebuilds exactly
      the columns asked for: nothing else is touched and no type mismatch is reported. */
  lemma {:induction false} ReadRow(r: Row, seen: set<Column>, selected: map<string, Holder>, cols: seq<Column>,
                                   cells: Column -> Cell, j: Json)
    requires Lossless(j)
    requires forall c :: c in cols ==> Represents(cells(c), r, c, j)
    ensures ScanRow(cols, cells).Some? && |ScanRow(cols, cells).value| == |cols|
    ensures AssignAll(Mask(r, seen), selected, cols, ScanRow(cols, cells).value, j).row == Mask(r, seen + ColumnSet(cols))
    ensures AssignAll(Mask(r, seen), selected, cols, ScanRow(cols, cells).value, j).error == None
    decreases |cols|
  {
    hide Mask, AssignColumn, Represents, HolderFor, Fill;
    if cols == [] {
      assert seen + ColumnSet(cols) == seen;
    } else {
      var c := cols[0];
      Step(r, seen, c, cells(c), j);
      var h := Fill(HolderFor(c), cells(c)).value;
      var sel := if c.Other? then selected[c.name := h] else selected;
      ReadRow(r, seen + {c}, sel, cols[1..], cells, j);
      assert seen + {c} + ColumnSet(cols[1..]) == seen + ColumnSet(cols) by {
        assert cols == [c] + cols[1..];
      }
      var rest := ScanRow(cols[1..], cells).value;
      assert ([h] + rest)[1..] == rest;
    }
  }

  lemma MaskNothing(r: Row)
    ensures Mask(r, {}) == ZERO_ROW
  {
  }

  lemma MaskEverything(r: Row, cols: set<Column>)
    requires forall c: Column :: c.Other? || c in cols
    ensures Mask(r, cols) == r
  {
  }

  /** The NOT NULL columns without a default: the table refuses a row that leaves one unset. */
  predicate Storable(d: Draft)
  {
    && d.createdAt.Some? && d.updatedAt.Some? && d.name.Some? && d.platform.Some? && d.kind.Some?
    && d.credentials.Some? && d.extra.Some?
  }

  /** The draft with the column defaults of the table in place of what it leaves unset. */
  function Completed(d: Draft): Draft
  {
    d.(concurrency := Some(d.concurrency.GetOr(3)),
       priority := Some(d.priority.GetOr(50)),
       rateMultiplier := Some(d.rateMultiplier.GetOr(1.0)),
       status := Some(d.status.GetOr("active")),
       autoPauseOnExpired := Some(d.autoPauseOnExpired.GetOr(true)),
       schedulable := Some(d.schedulable.GetOr(true)),
       quotaDimension := Some(d.quotaDimension.GetOr("global")))
  }

  /** Every column that has a default is set. */
  predicate LeavesNoDefault(d: Draft)
  {
    && d.concurrency.Some? && d.priority.Some? && d.rateMultiplier.Some? && d.status.Some?
    && d.autoPauseOnExpired.Some? && d.schedulable.Some? && d.quotaDimension.Some?
  }

  /** What the insert hands over for a column, the ID being the database's. */
  function InsertedCell(d: Draft, id: int, c: Column, j: Json): Cell
  {
    if c.ID? then IntCell(id) else SpecCell(d, c, j)
  }

  /** What the table holds for a draft it inserted under an id. */
  function StoredCell(d: Draft, id: int, c: Column, j: Json): Cell
    requires Storable(d)
  {
    InsertedCell(Completed(d), id, c, j)
  }

  lemma SpecCellStands(d: Draft, c: Column, j: Json)
    requires !c.ID?
    ensures Represents(SpecCell(d, c, j), SpecNode(d), c, j)
  {
  }

  lemma IDIsOneField(r: Row, id: int, c: Column)
    requires !c.ID?
    ensures FieldOf(r.(id := id), c) == FieldOf(r, c)
  {
  }

  /** Column by column, what createSpec hands to the insert is the field of the node it returns. */
  lemma SpecRepresentsNode(d: Draft, id: int, c: Column, j: Json)
    ensures Represents(InsertedCell(d, id, c, j), SpecNode(d).(id := id), c, j)
  {
    hide SpecNode, SpecCell;
    if !c.ID? {
      IDIsOneField(SpecNode(d), id, c);
      SpecCellStands(d, c, j);
    }
  }

  lemma RowCellRepresents(r: Row, c: Column, j: Json)
    ensures Represents(RowCell(r, c, j), r, c, j)
  {
  }

  /** The table's defaults show exactly where the draft leaves one of them unset, because none
      of them is the zero value that the node then has. */
  lemma DefaultsShowExactly(d: Draft)
    ensures SpecNode(Completed(d)) == SpecNode(d) <==> LeavesNoDefault(d)
  {
    if SpecNode(Completed(d)) == SpecNode(d) {
      assert SpecNode(Completed(d)).concurrency == SpecNode(d).concurrency;
      assert SpecNode(Completed(d)).priority == SpecNode(d).priority;
      assert SpecNode(Completed(d)).rateMultiplier == SpecNode(d).rateMultiplier;
      assert SpecNode(Completed(d)).status == SpecNode(d).status;
      assert SpecNode(Completed(d)).autoPauseOnExpired == SpecNode(d).autoPauseOnExpired;
      assert SpecNode(Completed(d)).schedulable == SpecNode(d).schedulable;
      assert SpecNode(Completed(d)).quotaDimension == SpecNode(d).quotaDimension;
    }
  }

  /** Create then read: decoding the stored row of a draft gives, in any column order, the
      selected columns of the node createSpec would return for the completed draft. Reading all
      columns gives the node createSpec did return, with its ID, if and only if the draft
      leaves no column default unset. */
  lemma CreateReadRoundTrip(d: Draft, id: int, cols: seq<Column>, j: Json)
    requires Lossless(j) && Storable(d)
    ensures var values := ScanRow(cols, c => StoredCell(d, id, c, j));
            && values.Some? && |values.value| == |cols|
            && var read := AssignAll(ZERO_ROW, map[], cols, values.value, j);
            && read.error == None
            && read.row == Mask(SpecNode(Completed(d)).(id := id), ColumnSet(cols))
            && ((forall c: Column :: c.Other? || c in cols) ==> (read.row == SpecNode(d).(id := id) <==> LeavesNoDefault(d)))
  {
    hide Completed, SpecNode, InsertedCell, Mask, AssignAll, ScanRow, Represents;
    var node := SpecNode(Completed(d)).(id := id);
    var cells := c => StoredCell(d, id, c, j);
    forall c | c in cols ensures Represents(cells(c), node, c, j) {
      SpecRepresentsNode(Completed(d), id, c, j);
    }
    MaskNothing(node);
    ReadRow(node, {}, map[], cols, cells, j);
    assert {} + ColumnSet(cols) == ColumnSet(cols);
    DefaultsShowExactly(d);
    SameUpToID(SpecNode(Completed(d)), SpecNode(d), id);
    SpecHasNoID(d);
    SpecHasNoID(Completed(d));
    if forall c: Column :: c.Other? || c in cols {
      MaskEverything(node, ColumnSet(cols));
    }
  }

  lemma NullFills(c: Column)
    ensures Fill(HolderFor(c), Null) == Some(HolderFor(c))
  {
  }

  /** A NULL leaves the node as it was, except that a NULL ID reads as 0. */
  lemma NullChangesNothing(m: Row, c: Column, j: Json)
    ensures Fill(HolderFor(c), Null) == Some(HolderFor(c))
    ensures AssignColumn(m, c, HolderFor(c), j) == Success(if c.ID? then m.(id := 0) else m)
  {
    NullFills(c);
    hide Fill;
  }

  lemma SpecHasNoID(d: Draft)
    ensures SpecNode(d).id == 0
  {
  }

  lemma SameUpToID(a: Row, b: Row, id: int)
    ensures a.id == b.id ==> (a.(id := id) == b.(id := id) <==> a == b)
  {
    if a.id == b.id && a.(id := id) == b.(id := id) {
      assert a == a.(id := id).(id := a.id);
      assert b == b.(id := id).(id := b.id);
    }
  }

  /** The cells of a stored row, column by column. */
  function Cells(r: Row, j: Json): Column -> Cell
  {
    c => RowCell(r, c, j)
  }

  /** Scanning and assigning a stored row into a fresh entity reads exactly the selected columns. */
  lemma ReadStoredRow(r: Row, cols: seq<Column>, j: Json)
    requires Lossless(j)
    ensures ScanRow(cols, Cells(r, j)).Some? && |ScanRow(cols, Cells(r, j)).value| == |cols|
    ensures var read := AssignAll(ZERO_ROW, map[], cols, ScanRow(cols, Cells(r, j)).value, j);
            read.error == None && read.row == Mask(r, ColumnSet(cols))
  {
    forall c | c in cols ensures Represents(Cells(r, j)(c), r, c, j) {
      RowCellRepresents(r, c, j);
    }
    MaskNothing(r);
    ReadRow(r, {}, map[], cols, Cells(r, j), j);
    assert {} + ColumnSet(cols) == ColumnSet(cols);
  }

  // ----- when reading fails

  /** A scan target that assignValues accepts for a column. */
  predicate Accepts(c: Column, h: Holder, j: Json)
  {
    match HolderFor(c)
    case NullInt64(_, _) => h.NullInt64?
    case NullFloat64(_, _) => h.NullFloat64?
    case NullBool(_, _) => h.NullBool?
    case NullString(_, _) => h.NullString?
    case NullTime(_, _) => h.NullTime?
    case Bytes(_) => h.Bytes? && (h.bytes == [] || j.decode(h.bytes).Some?)
    case UnknownType(_) => true
  }

  lemma AcceptsExactly(m: Row, c: Column, h: Holder, j: Json)
    ensures AssignColumn(m, c, h, j).Success? <==> Accepts(c, h, j)
  {
    hide AssignColumn, FieldOf, HolderFor;
    AssignAbsorbs(m, c, h, j);
    HolderFits(m, c);
  }

  /** assignValues succeeds if and only if every value has its column's type and every
      non-empty JSON column decodes; the error names the first column that does not. */
  lemma {:induction false} ReadFailsExactly(m: Row, selected: map<string, Holder>, cols: seq<Column>, values: seq<Holder>, j: Json)
    requires |cols| <= |values|
    ensures var read := AssignAll(m, selected, cols, values, j);
            match read.error
            case None => forall i :: 0 <= i < |cols| ==> Accepts(cols[i], values[i], j)
            case Some(e) => exists i :: 0 <= i < |cols| && !Accepts(cols[i], values[i], j) && e.Names(cols[i]) &&
                                        forall k :: 0 <= k < i ==> Accepts(cols[k], values[k], j)
    decreases |cols|
  {
    hide AssignColumn, HolderFor, Accepts;
    if cols != [] {
      var c, h := cols[0], values[0];
      AcceptsExactly(m, c, h, j);
      match AssignColumn(m, c, h, j)
      case Failure(e) =>
        FailureNames(m, c, h, j);
        assert !Accepts(cols[0], values[0], j);
      case Success(next) =>
        var sel := if c.Other? then selected[c.name := h] else selected;
        ReadFailsExactly(next, sel, cols[1..], values[1..], j);
        var read := AssignAll(next, sel, cols[1..], values[1..], j);
        match read.error
        case None =>
          forall i | 0 <= i < |cols| ensures Accepts(cols[i], values[i], j) {
            if i > 0 {
              assert cols[i] == cols[1..][i - 1] && values[i] == values[1..][i - 1];
            }
          }
        case Some(e) =>
          var i :| 0 <= i < |cols[1..]| && !Accepts(cols[1..][i], values[1..][i], j) && e.Names(cols[1..][i]) &&
                   forall k :: 0 <= k < i ==> Accepts(cols[1..][k], values[1..][k], j);
          assert !Accepts(cols[i + 1], values[i + 1], j) && e.Names(cols[i + 1]);
          forall k | 0 <= k < i + 1 ensures Accepts(cols[k], values[k], j) {
            if k > 0 {
              assert cols[k] == cols[1..][k - 1] && values[k] == values[1..][k - 1];
            }
          }
    }
  }

  lemma FailureNames(m: Row, c: Column, h: Holder, j: Json)
    requires AssignColumn(m, c, h, j).Failure?
    ensures AssignColumn(m, c, h, j).error.Names(c)
  {
    hide AssignColumn, FieldOf;
    AssignAbsorbs(m, c, h, j);
  }
}

