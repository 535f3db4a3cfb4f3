/** Defaults and validation of an account that is about to be created. */
module AccountDefaults {
  import opened Wrappers
  import opened AccountSchema
  import opened AccountCodec
  import opened AccountFields
  import opened AccountGraph

  /** The package variables that ent/runtime installs; a nil function is None. */
  datatype Runtime = Runtime(
    createdAt: Option<Time>, updatedAt: Option<Time>, credentials: Option<Document>, extra: Option<Document>,
    concurrency: int, priority: int, rateMultiplier: real, status: string, autoPauseOnExpired: bool, schedulable: bool,
    nameOK: string -> bool, platformOK: string -> bool, typeOK: string -> bool, statusOK: string -> bool,
    sessionWindowStatusOK: string -> bool)

  const QUOTA_GLOBAL := "global"
  const QUOTA_SPARK := "spark"

  predicate QuotaDimensionOK(q: string)
  {
    q == QUOTA_GLOBAL || q == QUOTA_SPARK
  }

  datatype Verdict =
    | Passed
    | Missing(column: Column)
    | Rejected(column: Column)

  /** What one step of defaults does: a supplied value stays, a default fills the gap. */
  function Fill<T>(own: Option<T>, default: Option<T>): Option<T>
  {
    if own.Some? then own else default
  }

  /** A pending create: the fields set so far, and what saving it fills in. */
  class Mutation {
    var draft: Draft
    var id: Account?
    var done: bool

    constructor (draft: Draft)
      ensures this.draft == draft && id == null && !done
    {
      this.draft, id, done := draft, null, false;
    }

    /** defaults: fills the unset fields in order and stops at the first uninitialized one. Each
        unset field gets the runtime variable of its own name; what is supplied, and what has no
        default, stays. */
    method Defaults(rt: Runtime) returns (stopped: Option<Column>)
      modifies this`draft
      ensures stopped == FirstUninitialized(old(draft), rt) && draft == Defaulted(old(draft), rt)
      ensures Filled(old(draft), draft, rt, stopped)
    {
      DefaultedIsFilled(draft, rt);
      stopped := DefaultFunctions(rt);
      if stopped.None? {
        DefaultValues(rt);
      }
    }

    /** The four defaults that are functions, each of which may be missing. */
    method DefaultFunctions(rt: Runtime) returns (stopped: Option<Column>)
      modifies this`draft
      ensures stopped == FirstUninitialized(old(draft), rt)
      ensures draft == FunctionsDefaulted(old(draft), rt)
    {
      if draft.createdAt.None? {
        if rt.createdAt.None? {
          return Some(CreatedAt);
        }
        draft := draft.(createdAt := rt.createdAt);
      }
      if draft.updatedAt.None? {
        if rt.updatedAt.None? {
          return Some(UpdatedAt);
        }
        draft := draft.(updatedAt := rt.updatedAt);
      }
      if draft.credentials.None? {
        if rt.credentials.None? {
          return Some(Credentials);
        }
        draft := draft.(credentials := rt.credentials);
      }
      if draft.extra.None? {
        if rt.extra.None? {
          return Some(Extra);
        }
        draft := draft.(extra := rt.extra);
      }
      stopped := None;
    }

    /** The seven defaults that are plain values. */
    method DefaultValues(rt: Runtime)
      modifies this`draft
      ensures draft == ValuesDefaulted(old(draft), rt)
    {
      if draft.concurrency.None? {
        draft := draft.(concurrency := Some(rt.concurrency));
      }
      if draft.priority.None? {
        draft := draft.(priority := Some(rt.priority));
      }
      if draft.rateMultiplier.None? {
        draft := draft.(rateMultiplier := Some(rt.rateMultiplier));
      }
      if draft.status.None? {
        draft := draft.(status := Some(rt.status));
      }
      if draft.autoPauseOnExpired.None? {
        draft := draft.(autoPauseOnExpired := Some(rt.autoPauseOnExpired));
      }
      if draft.schedulable.None? {
        draft := draft.(schedulable := Some(rt.schedulable));
      }
      if draft.quotaDimension.None? {
        draft := draft.(quotaDimension := Some(QUOTA_GLOBAL));
      }
    }
  }

  /** The field at which defaults stops, if any. */
  function FirstUninitialized(d: Draft, rt: Runtime): Option<Column>
  {
    if d.createdAt.None? && rt.createdAt.None? then Some(CreatedAt)
    else if d.updatedAt.None? && rt.updatedAt.None? then Some(UpdatedAt)
    else if d.credentials.None? && rt.credentials.None? then Some(Credentials)
    else if d.extra.None? && rt.extra.None? then Some(Extra)
    else None
  }

  /** The fields before the stop are filled; an uninitialized default has nothing to fill with,
      and the ones after it are not reached. */
  function FunctionsDefaulted(d: Draft, rt: Runtime): Draft
  {
    var d1 := d.(createdAt := Fill(d.createdAt, rt.createdAt));
    if d1.createdAt.None? then d1 else
    var d2 := d1.(updatedAt := Fill(d.updatedAt, rt.updatedAt));
    if d2.updatedAt.None? then d2 else
    var d3 := d2.(credentials := Fill(d.credentials, rt.credentials));
    if d3.credentials.None? then d3 else
    d3.(extra := Fill(d.extra, rt.extra))
  }

  function ValuesDefaulted(d: Draft, rt: Runtime): Draft
  {
    d.(
      concurrency := Fill(d.concurrency, Some(rt.concurrency)),
      priority := Fill(d.priority, Some(rt.priority)),
      rateMultiplier := Fill(d.rateMultiplier, Some(rt.rateMultiplier)),
      status := Fill(d.status, Some(rt.status)),
      autoPauseOnExpired := Fill(d.autoPauseOnExpired, Some(rt.autoPauseOnExpired)),
      schedulable := Fill(d.schedulable, Some(rt.schedulable)),
      quotaDimension := Fill(d.quotaDimension, Some(QUOTA_GLOBAL)))
  }

  /** The draft defaults leaves behind. */
  function Defaulted(d: Draft, rt: Runtime): Draft
  {
    var filled := FunctionsDefaulted(d, rt);
    if FirstUninitialized(d, rt).Some? then filled else ValuesDefaulted(filled, rt)
  }

  // ----- defaults, column by column

  /** The runtime variable of a column's own name; None is a nil function, or no default at all. */
  function RuntimeDefault(rt: Runtime, c: Column): Option<Value>
  {
    match c
    case CreatedAt => if rt.createdAt.None? then None else Some(Moment(rt.createdAt.value))
    case UpdatedAt => if rt.updatedAt.None? then None else Some(Moment(rt.updatedAt.value))
    case Credentials => if rt.credentials.None? then None else Some(Tree(rt.credentials.value))
    case Extra => if rt.extra.None? then None else Some(Tree(rt.extra.value))
    case Concurrency => Some(Number(rt.concurrency))
    case Priority => Some(Number(rt.priority))
    case RateMultiplier => Some(Fraction(rt.rateMultiplier))
    case Status => Some(Words(rt.status))
    case AutoPauseOnExpired => Some(Truth(rt.autoPauseOnExpired))
    case Schedulable => Some(Truth(rt.schedulable))
    case QuotaDimension => Some(Words("global"))
    case _ => None
  }

  /** The defaults that are functions, in the order they are called. */
  const FUNCTION_DEFAULTS: seq<Column> := [CreatedAt, UpdatedAt, Credentials, Extra]

  /** Column c of the draft after its default was applied. */
  predicate Applied(was: Draft, d: Draft, rt: Runtime, c: Column)
  {
    Supplied(d, c) == if Supplied(was, c).Some? then Supplied(was, c) else RuntimeDefault(rt, c)
  }

  /** The n-th default function is missing and needed, and no earlier one. */
  predicate StopsAt(was: Draft, rt: Runtime, n: nat)
    requires n < |FUNCTION_DEFAULTS|
  {
    && Supplied(was, FUNCTION_DEFAULTS[n]).None? && RuntimeDefault(rt, FUNCTION_DEFAULTS[n]).None?
    && forall i :: 0 <= i < n ==> Supplied(was, FUNCTION_DEFAULTS[i]).Some? || RuntimeDefault(rt, FUNCTION_DEFAULTS[i]).Some?
  }

  /** When nothing is missing every default is applied; else those before the first missing one,
      and every other field is as it was. */
  ghost predicate Filled(was: Draft, d: Draft, rt: Runtime, stopped: Option<Column>)
  {
    match stopped
    case None =>
      && (forall n :: 0 <= n < |FUNCTION_DEFAULTS| ==> !StopsAt(was, rt, n))
      && (forall c :: Applied(was, d, rt, c))
    case Some(at) =>
      exists n :: 0 <= n < |FUNCTION_DEFAULTS| && StopsAt(was, rt, n) && at == FUNCTION_DEFAULTS[n]
                  && forall c :: if c in FUNCTION_DEFAULTS[..n] then Applied(was, d, rt, c) else Supplied(d, c) == Supplied(was, c)
  }

  lemma Functions(n: nat, c: Column)
    requires n <= |FUNCTION_DEFAULTS|
    ensures c in FUNCTION_DEFAULTS[..n] <==>
            (n > 0 && c == CreatedAt) || (n > 1 && c == UpdatedAt) || (n > 2 && c == Credentials) || (n > 3 && c == Extra)
  {
    if c in FUNCTION_DEFAULTS[..n] {
      var i :| 0 <= i < n && FUNCTION_DEFAULTS[i] == c;
      assert i == 0 || i == 1 || i == 2 || i == 3;
    }
    assert n > 0 ==> FUNCTION_DEFAULTS[..n][0] == CreatedAt;
    assert n > 1 ==> FUNCTION_DEFAULTS[..n][1] == UpdatedAt;
    assert n > 2 ==> FUNCTION_DEFAULTS[..n][2] == Credentials;
    assert n > 3 ==> FUNCTION_DEFAULTS[..n][3] == Extra;
  }

  /** The draft with the first n default functions applied. */
  function AppliedUpTo(d: Draft, rt: Runtime, n: nat): Draft
  {
    d.(createdAt := if n > 0 then Fill(d.createdAt, rt.createdAt) else d.createdAt,
       updatedAt := if n > 1 then Fill(d.updatedAt, rt.updatedAt) else d.updatedAt,
       credentials := if n > 2 then Fill(d.credentials, rt.credentials) else d.credentials,
       extra := if n > 3 then Fill(d.extra, rt.extra) else d.extra)
  }

  lemma NeedsFunction(d: Draft, rt: Runtime)
    ensures Supplied(d, CreatedAt).Some? <==> d.createdAt.Some?
    ensures Supplied(d, UpdatedAt).Some? <==> d.updatedAt.Some?
    ensures Supplied(d, Credentials).Some? <==> d.credentials.Some?
    ensures Supplied(d, Extra).Some? <==> d.extra.Some?
    ensures RuntimeDefault(rt, CreatedAt).Some? <==> rt.createdAt.Some?
    ensures RuntimeDefault(rt, UpdatedAt).Some? <==> rt.updatedAt.Some?
    ensures RuntimeDefault(rt, Credentials).Some? <==> rt.credentials.Some?
    ensures RuntimeDefault(rt, Extra).Some? <==> rt.extra.Some?
  {
  }

  lemma StopIs(d: Draft, rt: Runtime, n: nat)
    requires n < |FUNCTION_DEFAULTS| && StopsAt(d, rt, n)
    ensures FirstUninitialized(d, rt) == Some(FUNCTION_DEFAULTS[n]) && Defaulted(d, rt) == AppliedUpTo(d, rt, n)
  {
    NeedsFunction(d, rt);
    hide Supplied, RuntimeDefault, ValuesDefaulted;
    assert n == 0 || n == 1 || n == 2 || n == 3;
    assert n > 0 ==> Supplied(d, FUNCTION_DEFAULTS[0]).Some? || RuntimeDefault(rt, FUNCTION_DEFAULTS[0]).Some?;
    assert n > 1 ==> Supplied(d, FUNCTION_DEFAULTS[1]).Some? || RuntimeDefault(rt, FUNCTION_DEFAULTS[1]).Some?;
    assert n > 2 ==> Supplied(d, FUNCTION_DEFAULTS[2]).Some? || RuntimeDefault(rt, FUNCTION_DEFAULTS[2]).Some?;
  }

  predicate IsFunction(c: Column)
  {
    c == CreatedAt || c == UpdatedAt || c == Credentials || c == Extra
  }

  lemma OtherColumn(d: Draft, rt: Runtime, n: nat, c: Column)
    requires !IsFunction(c)
    ensures Supplied(AppliedUpTo(d, rt, n), c) == Supplied(d, c)
  {
    hide Fill;
  }

  lemma FunctionColumn(d: Draft, rt: Runtime, n: nat, c: Column)
    requires IsFunction(c)
    ensures if (n > 0 && c == CreatedAt) || (n > 1 && c == UpdatedAt) || (n > 2 && c == Credentials) || (n > 3 && c == Extra)
            then Applied(d, AppliedUpTo(d, rt, n), rt, c)
            else Supplied(AppliedUpTo(d, rt, n), c) == Supplied(d, c)
  {
  }

  lemma AppliedColumn(d: Draft, rt: Runtime, n: nat, c: Column)
    requires n <= |FUNCTION_DEFAULTS|
    ensures if c in FUNCTION_DEFAULTS[..n] then Applied(d, AppliedUpTo(d, rt, n), rt, c)
            else Supplied(AppliedUpTo(d, rt, n), c) == Supplied(d, c)
  {
    hide Applied, AppliedUpTo, Supplied;
    Functions(n, c);
    if IsFunction(c) {
      FunctionColumn(d, rt, n, c);
    } else {
      OtherColumn(d, rt, n, c);
    }
  }

  lemma FunctionFilled(d: Draft, rt: Runtime, n: nat, c: Column)
    requires n < |FUNCTION_DEFAULTS| && StopsAt(d, rt, n)
    ensures FirstUninitialized(d, rt) == Some(FUNCTION_DEFAULTS[n])
    ensures if c in FUNCTION_DEFAULTS[..n] then Applied(d, Defaulted(d, rt), rt, c) else Supplied(Defaulted(d, rt), c) == Supplied(d, c)
  {
    hide *;
    StopIs(d, rt, n);
    AppliedColumn(d, rt, n, c);
  }

  predicate HasValueDefault(c: Column)
  {
    c == Concurrency || c == Priority || c == RateMultiplier || c == Status || c == AutoPauseOnExpired || c == Schedulable ||
    c == QuotaDimension
  }

  lemma KeptColumn(d: Draft, rt: Runtime, c: Column)
    requires !HasValueDefault(c)
    ensures Supplied(ValuesDefaulted(d, rt), c) == Supplied(d, c)
  {
    hide Fill;
  }

  lemma NoDefault(d: Draft, rt: Runtime, c: Column)
    requires !IsFunction(c) && !HasValueDefault(c)
    ensures RuntimeDefault(rt, c).None?
  {
  }

  lemma FilledColumn(d: Draft, rt: Runtime, c: Column)
    requires HasValueDefault(c)
    ensures Applied(d, ValuesDefaulted(d, rt), rt, c)
  {
  }

  lemma ValueColumn(d: Draft, rt: Runtime, c: Column)
    ensures if IsFunction(c) then Supplied(ValuesDefaulted(d, rt), c) == Supplied(d, c)
            else Applied(d, ValuesDefaulted(d, rt), rt, c)
  {
    hide ValuesDefaulted, Supplied, RuntimeDefault;
    if HasValueDefault(c) {
      FilledColumn(d, rt, c);
    } else {
      KeptColumn(d, rt, c);
      if !IsFunction(c) {
        NoDefault(d, rt, c);
      }
    }
  }

  lemma AllFunctions(d: Draft, rt: Runtime)
    requires FirstUninitialized(d, rt).None?
    ensures Defaulted(d, rt) == ValuesDefaulted(AppliedUpTo(d, rt, |FUNCTION_DEFAULTS|), rt)
  {
    hide ValuesDefaulted;
  }

  lemma AllFilled(d: Draft, rt: Runtime, c: Column)
    requires FirstUninitialized(d, rt).None?
    ensures Applied(d, Defaulted(d, rt), rt, c)
  {
    hide AppliedUpTo, ValuesDefaulted, Supplied, RuntimeDefault, Defaulted;
    var n := |FUNCTION_DEFAULTS|;
    AllFunctions(d, rt);
    Functions(n, c);
    AppliedColumn(d, rt, n, c);
    ValueColumn(AppliedUpTo(d, rt, n), rt, c);
  }

  lemma StopsSomewhere(d: Draft, rt: Runtime)
    ensures FirstUninitialized(d, rt).None? <==> forall n :: 0 <= n < |FUNCTION_DEFAULTS| ==> !StopsAt(d, rt, n)
  {
    NeedsFunction(d, rt);
    hide Supplied, RuntimeDefault;
    if d.createdAt.None? && rt.createdAt.None? {
      assert StopsAt(d, rt, 0);
    } else if d.updatedAt.None? && rt.updatedAt.None? {
      assert StopsAt(d, rt, 1);
    } else if d.credentials.None? && rt.credentials.None? {
      assert StopsAt(d, rt, 2);
    } else if d.extra.None? && rt.extra.None? {
      assert StopsAt(d, rt, 3);
    }
  }

  lemma DefaultedIsFilled(d: Draft, rt: Runtime)
    ensures Filled(d, Defaulted(d, rt), rt, FirstUninitialized(d, rt))
  {
    StopsSomewhere(d, rt);
    hide Supplied, Defaulted, FirstUninitialized, StopsAt, RuntimeDefault;
    if FirstUninitialized(d, rt).None? {
      forall c {
        AllFilled(d, rt, c);
      }
    } else {
      var n :| 0 <= n < |FUNCTION_DEFAULTS| && StopsAt(d, rt, n);
      forall c
        ensures if c in FUNCTION_DEFAULTS[..n] then Applied(d, Defaulted(d, rt), rt, c)
                else Supplied(Defaulted(d, rt), c) == Supplied(d, c)
      {
        FunctionFilled(d, rt, n, c);
      }
      FunctionFilled(d, rt, n, ID);
    }
  }

  /** check: required fields and validators in declaration order, the first failure wins. */
  function Check(d: Draft, rt: Runtime): Verdict
  {
    if d.createdAt.None? then Missing(CreatedAt)
    else if d.updatedAt.None? then Missing(UpdatedAt)
    else if d.name.None? then Missing(Name)
    else if !rt.nameOK(d.name.value) then Rejected(Name)
    else if d.platform.None? then Missing(Platform)
    else if !rt.platformOK(d.platform.value) then Rejected(Platform)
    else if d.kind.None? then Missing(Type)
    else if !rt.typeOK(d.kind.value) then Rejected(Type)
    else if d.credentials.None? then Missing(Credentials)
    else if d.extra.None? then Missing(Extra)
    else if d.concurrency.None? then Missing(Concurrency)
    else if d.priority.None? then Missing(Priority)
    else if d.rateMultiplier.None? then Missing(RateMultiplier)
    else if d.status.None? then Missing(Status)
    else if !rt.statusOK(d.status.value) then Rejected(Status)
    else if d.autoPauseOnExpired.None? then Missing(AutoPauseOnExpired)
    else if d.schedulable.None? then Missing(Schedulable)
    else if d.sessionWindowStatus.Some? && !rt.sessionWindowStatusOK(d.sessionWindowStatus.value) then Rejected(SessionWindowStatus)
    else if d.quotaDimension.None? then Missing(QuotaDimension)
    else if !QuotaDimensionOK(d.quotaDimension.value) then Rejected(QuotaDimension)
    else Passed
  }

  // ----- check, field by field

  /** The fields check looks at, in declaration order. */
  const CHECKED: seq<Column> := [
    CreatedAt, UpdatedAt, Name, Platform, Type, Credentials, Extra, Concurrency, Priority, RateMultiplier, Status,
    AutoPauseOnExpired, Schedulable, SessionWindowStatus, QuotaDimension]

  /** The validator of a column. */
  predicate Valid(rt: Runtime, c: Column, v: Value)
  {
    match (c, v)
    case (Name, Words(s)) => rt.nameOK(s)
    case (Platform, Words(s)) => rt.platformOK(s)
    case (Type, Words(s)) => rt.typeOK(s)
    case (Status, Words(s)) => rt.statusOK(s)
    case (SessionWindowStatus, Words(s)) => rt.sessionWindowStatusOK(s)
    case (QuotaDimension, Words(s)) => s == "global" || s == "spark"
    case _ => true
  }

  /** What is wrong with one field: it is unset, unless it may be, or its validator rejects it. */
  function Trouble(d: Draft, rt: Runtime, c: Column): Verdict
  {
    match Supplied(d, c)
    case None => if c.SessionWindowStatus? then Passed else Missing(c)
    case Some(v) => if Valid(rt, c, v) then Passed else Rejected(c)
  }

  predicate FirstTrouble(d: Draft, rt: Runtime, n: nat)
    requires n < |CHECKED|
  {
    Trouble(d, rt, CHECKED[n]) != Passed && forall i :: 0 <= i < n ==> Trouble(d, rt, CHECKED[i]) == Passed
  }

  /** What only the caller can get wrong. */
  predicate SuppliedOK(d: Draft, rt: Runtime)
  {
    && d.name.Some? && rt.nameOK(d.name.value)
    && d.platform.Some? && rt.platformOK(d.platform.value)
    && d.kind.Some? && rt.typeOK(d.kind.value)
    && (d.status.Some? ==> rt.statusOK(d.status.value))
    && (d.sessionWindowStatus.Some? ==> rt.sessionWindowStatusOK(d.sessionWindowStatus.value))
    && (d.quotaDimension.Some? ==> QuotaDimensionOK(d.quotaDimension.value))
  }

  /** What check says of the fields from the n-th on. */
  function CheckFrom(d: Draft, rt: Runtime, n: nat): Verdict
    requires n <= |CHECKED|
    decreases |CHECKED| - n
  {
    if n == |CHECKED| then Passed
    else if Trouble(d, rt, CHECKED[n]) != Passed then Trouble(d, rt, CHECKED[n])
    else CheckFrom(d, rt, n + 1)
  }

  lemma {:induction false} CheckFromFirst(d: Draft, rt: Runtime, n: nat)
    requires n <= |CHECKED|
    ensures CheckFrom(d, rt, n) == Passed ==> forall i :: n <= i < |CHECKED| ==> Trouble(d, rt, CHECKED[i]) == Passed
    ensures CheckFrom(d, rt, n) != Passed ==>
              exists i :: n <= i < |CHECKED| && CheckFrom(d, rt, n) == Trouble(d, rt, CHECKED[i])
                          && forall k :: n <= k < i ==> Trouble(d, rt, CHECKED[k]) == Passed
    decreases |CHECKED| - n
  {
    hide Trouble, CHECKED;
    if n < |CHECKED| && Trouble(d, rt, CHECKED[n]) == Passed {
      CheckFromFirst(d, rt, n + 1);
    }
  }

  lemma TroubleOfTimes(d: Draft, rt: Runtime)
    ensures Trouble(d, rt, CreatedAt) == if d.createdAt.None? then Missing(CreatedAt) else Passed
    ensures Trouble(d, rt, UpdatedAt) == if d.updatedAt.None? then Missing(UpdatedAt) else Passed
    ensures Trouble(d, rt, Credentials) == if d.credentials.None? then Missing(Credentials) else Passed
    ensures Trouble(d, rt, Extra) == if d.extra.None? then Missing(Extra) else Passed
  {
  }

  lemma TroubleOfNumbers(d: Draft, rt: Runtime)
    ensures Trouble(d, rt, Concurrency) == if d.concurrency.None? then Missing(Concurrency) else Passed
    ensures Trouble(d, rt, Priority) == if d.priority.None? then Missing(Priority) else Passed
    ensures Trouble(d, rt, RateMultiplier) == if d.rateMultiplier.None? then Missing(RateMultiplier) else Passed
  {
  }

  lemma TroubleOfFlags(d: Draft, rt: Runtime)
    ensures Trouble(d, rt, AutoPauseOnExpired) == if d.autoPauseOnExpired.None? then Missing(AutoPauseOnExpired) else Passed
    ensures Trouble(d, rt, Schedulable) == if d.schedulable.None? then Missing(Schedulable) else Passed
  {
  }

  lemma TroubleOfTexts(d: Draft, rt: Runtime)
    ensures Trouble(d, rt, Name) ==
            if d.name.None? then Missing(Name) else if !rt.nameOK(d.name.value) then Rejected(Name) else Passed
    ensures Trouble(d, rt, Platform) ==
            if d.platform.None? then Missing(Platform) else if !rt.platformOK(d.platform.value) then Rejected(Platform) else Passed
    ensures Trouble(d, rt, Type) ==
            if d.kind.None? then Missing(Type) else if !rt.typeOK(d.kind.value) then Rejected(Type) else Passed
  {
  }

  lemma TroubleOfStates(d: Draft, rt: Runtime)
    ensures Trouble(d, rt, Status) ==
            if d.status.None? then Missing(Status) else if !rt.statusOK(d.status.value) then Rejected(Status) else Passed
    ensures Trouble(d, rt, SessionWindowStatus) ==
            if d.sessionWindowStatus.Some? && !rt.sessionWindowStatusOK(d.sessionWindowStatus.value) then Rejected(SessionWindowStatus)
            else Passed
    ensures Trouble(d, rt, QuotaDimension) ==
            if d.quotaDimension.None? then Missing(QuotaDimension)
            else if !QuotaDimensionOK(d.quotaDimension.value) then Rejected(QuotaDimension) else Passed
  {
  }

  lemma CheckedStep(d: Draft, rt: Runtime, n: nat)
    requires n < |CHECKED|
    ensures CheckFrom(d, rt, n) ==
            if Trouble(d, rt, CHECKED[n]) != Passed then Trouble(d, rt, CHECKED[n]) else CheckFrom(d, rt, n + 1)
  {
    hide Trouble, CHECKED;
  }

  lemma CheckedEnd(d: Draft, rt: Runtime)
    ensures CheckFrom(d, rt, |CHECKED|) == Passed
  {
  }

  lemma CheckIsCheckFrom(d: Draft, rt: Runtime)
    ensures Check(d, rt) == CheckFrom(d, rt, 0)
  {
    hide Trouble, CheckFrom, QuotaDimensionOK;
    CheckedEnd(d, rt);
    CheckedStep(d, rt, 0);
    CheckedStep(d, rt, 1);
    CheckedStep(d, rt, 2);
    CheckedStep(d, rt, 3);
    CheckedStep(d, rt, 4);
    CheckedStep(d, rt, 5);
    CheckedStep(d, rt, 6);
    CheckedStep(d, rt, 7);
    CheckedStep(d, rt, 8);
    CheckedStep(d, rt, 9);
    CheckedStep(d, rt, 10);
    CheckedStep(d, rt, 11);
    CheckedStep(d, rt, 12);
    CheckedStep(d, rt, 13);
    CheckedStep(d, rt, 14);
    TroubleOfTimes(d, rt);
    TroubleOfNumbers(d, rt);
    TroubleOfFlags(d, rt);
    TroubleOfTexts(d, rt);
    TroubleOfStates(d, rt);
  }

  /** check passes exactly when no field is in trouble; otherwise its verdict is the trouble of
      the first such field in declaration order. */
  lemma CheckNamesFirst(d: Draft, rt: Runtime)
    ensures Check(d, rt) == Passed <==> forall n :: 0 <= n < |CHECKED| ==> Trouble(d, rt, CHECKED[n]) == Passed
    ensures Check(d, rt) != Passed ==> exists n :: 0 <= n < |CHECKED| && FirstTrouble(d, rt, n) && Check(d, rt) == Trouble(d, rt, CHECKED[n])
  {
    CheckIsCheckFrom(d, rt);
    CheckFromFirst(d, rt, 0);
    hide Trouble, CHECKED, CheckFrom, Check;
    if Check(d, rt) != Passed {
      var n :| 0 <= n < |CHECKED| && CheckFrom(d, rt, 0) == Trouble(d, rt, CHECKED[n])
               && forall k :: 0 <= k < n ==> Trouble(d, rt, CHECKED[k]) == Passed;
      assert FirstTrouble(d, rt, n);
    }
  }

  /** Bulk Save throws the error of defaults away; that is harmless, because check then
      rejects the builder, whatever else it has set. */
  lemma DiscardedErrorIsCaught(d: Draft, rt: Runtime)
    requires FirstUninitialized(d, rt).Some?
    ensures Check(Defaulted(d, rt), rt) != Passed
  {
  }

  /** With valid default values, check passes exactly the drafts whose defaults completed and
      whose supplied values are in order. */
  lemma CheckAfterDefaults(d: Draft, rt: Runtime)
    requires rt.statusOK(rt.status)
    ensures Check(Defaulted(d, rt), rt) == Passed <==> FirstUninitialized(d, rt).None? && SuppliedOK(d, rt)
  {
  }

  /** A draft that passes check is stored and leaves no column to the table's defaults. */
  lemma CheckedIsComplete(d: Draft, rt: Runtime)
    requires Check(d, rt) == Passed
    ensures Storable(d) && LeavesNoDefault(d)
  {
  }

  /** Create then read for every draft that passes check: decoding the stored row gives the
      node createSpec returned plus its ID, in any column order and without a type mismatch. */
  lemma CheckedRoundTrip(d: Draft, rt: Runtime, id: int, cols: seq<Column>, j: Json)
    requires Lossless(j) && Check(d, rt) == Passed
    ensures Storable(d)
    ensures var values := ScanRow(cols, c => StoredCell(d, id, c, j));
            && values.Some? && |values.value| == |cols|
            && var read := AssignAll(ZERO_ROW, map[], cols, values.value, j);
            read.error == None && read.row == Mask(SpecNode(d).(id := id), ColumnSet(cols))
  {
    CheckedIsComplete(d, rt);
    hide Check, Completed, SpecNode, Mask, AssignAll, ScanRow;
    CreateReadRoundTrip(d, id, cols, j);
    DefaultsShowExactly(d);
  }
}
