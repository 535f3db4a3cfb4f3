/** The account table as the generated ent package sees it: the 32 columns, a
    decoded row, and the fields a create mutation may have set. */
module AccountSchema {
  import opened Wrappers

  /** Instants are kept abstract as integers; ZERO_TIME is Go's zero time.Time. */
  type Time = int
  const ZERO_TIME: Time := 0

  /** A JSON object column (credentials, extra); NilMap is Go's nil map. */
  datatype Document = NilMap | Object(text: string)

  /** The column names of account.Columns; any other name is Other. */
  datatype Column =
    | ID | CreatedAt | UpdatedAt | DeletedAt | Name | Notes
    | Platform | Type | Credentials | Extra | ProxyID | ProxyFallbackOriginID
    | Concurrency | LoadFactor | Priority | RateMultiplier | Status | ErrorMessage
    | LastUsedAt | ExpiresAt | AutoPauseOnExpired | Schedulable | RateLimitedAt | RateLimitResetAt
    | OverloadUntil | TempUnschedulableUntil | TempUnschedulableReason | SessionWindowStart | SessionWindowEnd | SessionWindowStatus
    | ParentAccountID | QuotaDimension | Other(name: string)

  /** The fields of the Account entity that map to columns; pointers are Options. */
  datatype Row = Row(
    id: int,
    createdAt: Time,
    updatedAt: Time,
    deletedAt: Option<Time>,
    name: string,
    notes: Option<string>,
    platform: string,
    kind: string,
    credentials: Document,
    extra: Document,
    proxyID: Option<int>,
    proxyFallbackOriginID: Option<int>,
    concurrency: int,
    loadFactor: Option<int>,
    priority: int,
    rateMultiplier: real,
    status: string,
    errorMessage: Option<string>,
    lastUsedAt: Option<Time>,
    expiresAt: Option<Time>,
    autoPauseOnExpired: bool,
    schedulable: bool,
    rateLimitedAt: Option<Time>,
    rateLimitResetAt: Option<Time>,
    overloadUntil: Option<Time>,
    tempUnschedulableUntil: Option<Time>,
    tempUnschedulableReason: Option<string>,
    sessionWindowStart: Option<Time>,
    sessionWindowEnd: Option<Time>,
    sessionWindowStatus: Option<string>,
    parentAccountID: Option<int>,
    quotaDimension: string
  )

  /** The zero value of the entity, as &Account{} builds it. */
  const ZERO_ROW := Row(
    0, ZERO_TIME, ZERO_TIME, None, "", None, "", "",
    NilMap, NilMap, None, None, 0, None, 0, 0.0,
    "", None, None, None, false, false, None, None,
    None, None, None, None, None, None, None, "")

  /** The fields set on an AccountMutation; None means the setter was not called.
      proxy and parent are the unique edges that own a foreign-key column. */
  datatype Draft = Draft(
    createdAt: Option<Time>,
    updatedAt: Option<Time>,
    deletedAt: Option<Time>,
    name: Option<string>,
    notes: Option<string>,
    platform: Option<string>,
    kind: Option<string>,
    credentials: Option<Document>,
    extra: Option<Document>,
    proxy: Option<int>,
    proxyFallbackOriginID: Option<int>,
    concurrency: Option<int>,
    loadFactor: Option<int>,
    priority: Option<int>,
    rateMultiplier: Option<real>,
    status: Option<string>,
    errorMessage: Option<string>,
    lastUsedAt: Option<Time>,
    expiresAt: Option<Time>,
    autoPauseOnExpired: Option<bool>,
    schedulable: Option<bool>,
    rateLimitedAt: Option<Time>,
    rateLimitResetAt: Option<Time>,
    overloadUntil: Option<Time>,
    tempUnschedulableUntil: Option<Time>,
    tempUnschedulableReason: Option<string>,
    sessionWindowStart: Option<Time>,
    sessionWindowEnd: Option<Time>,
    sessionWindowStatus: Option<string>,
    parent: Option<int>,
    quotaDimension: Option<string>
  )

  /** Keeps the fields whose column is in cols and zeroes the others. */
  function Mask(r: Row, cols: set<Column>): (m: Row)
  {
    Row(
      if ID in cols then r.id else 0,
      if CreatedAt in cols then r.createdAt else ZERO_TIME,
      if UpdatedAt in cols then r.updatedAt else ZERO_TIME,
      if DeletedAt in cols then r.deletedAt else None,
      if Name in cols then r.name else "",
      if Notes in cols then r.notes else None,
      if Platform in cols then r.platform else "",
      if Type in cols then r.kind else "",
      if Credentials in cols then r.credentials else NilMap,
      if Extra in cols then r.extra else NilMap,
      if ProxyID in cols then r.proxyID else None,
      if ProxyFallbackOriginID in cols then r.proxyFallbackOriginID else None,
      if Concurrency in cols then r.concurrency else 0,
      if LoadFactor in cols then r.loadFactor else None,
      if Priority in cols then r.priority else 0,
      if RateMultiplier in cols then r.rateMultiplier else 0.0,
      if Status in cols then r.status else "",
      if ErrorMessage in cols then r.errorMessage else None,
      if LastUsedAt in cols then r.lastUsedAt else None,
      if ExpiresAt in cols then r.expiresAt else None,
      if AutoPauseOnExpired in cols then r.autoPauseOnExpired else false,
      if Schedulable in cols then r.schedulable else false,
      if RateLimitedAt in cols then r.rateLimitedAt else None,
      if RateLimitResetAt in cols then r.rateLimitResetAt else None,
      if OverloadUntil in cols then r.overloadUntil else None,
      if TempUnschedulableUntil in cols then r.tempUnschedulableUntil else None,
      if TempUnschedulableReason in cols then r.tempUnschedulableReason else None,
      if SessionWindowStart in cols then r.sessionWindowStart else None,
      if SessionWindowEnd in cols then r.sessionWindowEnd else None,
      if SessionWindowStatus in cols then r.sessionWindowStatus else None,
      if ParentAccountID in cols then r.parentAccountID else None,
      if QuotaDimension in cols then r.quotaDimension else "")
  }

  function ColumnSet(cols: seq<Column>): set<Column>
  {
    set c | c in cols
  }
}
