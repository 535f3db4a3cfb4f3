/** What one bulk Save does, as a function of its builders: how far the chain of mutators
    descends, which drafts it submits, in which order its events happen. */
module BulkChain {
  import opened Wrappers
  import opened AccountSchema
  import opened AccountDefaults

  datatype SaveError =
    | Aborted(code: int)
    | Invalid(builder: nat, verdict: Verdict)
    | InsertFailed(code: int)

  /** What a hook does before it calls next: fail, edit the mutation it was given, or hand
      next another mutation. */
  datatype Entry =
    | Abort(code: int)
    | Edit(draft: Draft)
    | Swap(draft: Draft)

  /** A hook calls next at most once and, when next succeeded, may still reject.
      Each hook of a bulk runs at most once per Save, so a function covers all it can do. */
  datatype Hook = Hook(enter: Draft -> Entry, reject: Option<int>)

  /** A builder as the chain finds it. */
  datatype Plan = Plan(hooks: seq<Hook>, draft: Draft)

  /** own is the draft of the builder's mutation, passed that of the mutation handed on;
      they are one object until a hook swaps it. */
  datatype Flow = Flow(own: Draft, passed: Draft, swapped: bool)

  function Start(d: Draft): Flow
  {
    Flow(d, d, false)
  }

  function Enter(f: Flow, e: Entry): Flow
    requires !e.Abort?
  {
    match e
    case Edit(d) => if f.swapped then f.(passed := d) else Flow(d, d, false)
    case Swap(d) => Flow(f.own, d, true)
  }

  /** Running the remaining hooks of one builder. */
  function Run(hooks: seq<Hook>, f: Flow): Result<Flow, int>
  {
    if hooks == [] then Success(f)
    else
      var e := hooks[0].enter(f.passed);
      if e.Abort? then Failure(e.code) else Run(hooks[1..], Enter(f, e))
  }

  /** Each hook is given the draft the one before it left; none aborts. */
  ghost predicate HandedOn(hooks: seq<Hook>, ds: seq<Draft>)
  {
    |ds| == |hooks| + 1 && forall k :: 0 <= k < |hooks| ==> Leaves(hooks[k].enter(ds[k]), ds[k + 1])
  }

  predicate Leaves(e: Entry, d: Draft)
  {
    !e.Abort? && d == e.draft
  }

  /** What a builder submits is the draft its last hook left; what its check sees is the draft
      the first swapping hook was given, for from there on the hooks work on another mutation. */
  lemma {:induction false} RunHandsOn(hooks: seq<Hook>, f: Flow) returns (ds: seq<Draft>, s: nat)
    requires Run(hooks, f).Success? && (!f.swapped ==> f.own == f.passed)
    ensures HandedOn(hooks, ds) && ds[0] == f.passed && Run(hooks, f).value.passed == ds[|hooks|]
    ensures s <= |hooks| && (s < |hooks| ==> hooks[s].enter(ds[s]).Swap?)
    ensures forall k :: 0 <= k < s ==> hooks[k].enter(ds[k]).Edit?
    ensures Run(hooks, f).value.own == if f.swapped then f.own else ds[s]
    decreases |hooks|
  {
    if hooks == [] {
      ds, s := [f.passed], 0;
    } else {
      var e := hooks[0].enter(f.passed);
      var g := Enter(f, e);
      var rest, n := RunHandsOn(hooks[1..], g);
      ds := [f.passed] + rest;
      forall k | 0 < k < |hooks| ensures Leaves(hooks[k].enter(ds[k]), ds[k + 1]) && hooks[k].enter(ds[k]) == hooks[1..][k - 1].enter(rest[k - 1]) {
        assert Leaves(hooks[1..][k - 1].enter(rest[k - 1]), rest[k]);
      }
      s := if e.Swap? then 0 else n + 1;
    }
  }

  /** Why the descent into hook h of builder i ends before the insert; None if it does not. */
  function Stop(ps: seq<Plan>, i: nat, h: nat, f: Flow, rt: Runtime): Option<SaveError>
    requires i < |ps| && h <= |ps[i].hooks|
    decreases |ps| - i, |ps[i].hooks| - h
  {
    if h < |ps[i].hooks| then
      var e := ps[i].hooks[h].enter(f.passed);
      if e.Abort? then Some(Aborted(e.code)) else Stop(ps, i, h + 1, Enter(f, e), rt)
    else if Check(f.own, rt) != Passed then Some(Invalid(i, Check(f.own, rt)))
    else StopFrom(ps, i + 1, rt)
  }

  function StopFrom(ps: seq<Plan>, i: nat, rt: Runtime): Option<SaveError>
    requires i <= |ps|
    decreases |ps| - i
  {
    if i == |ps| then None else Stop(ps, i, 0, Start(ps[i].draft), rt)
  }

  datatype Event =
    | Entered(builder: nat, hook: nat)
    | Checked(builder: nat)
    | Inserted
    | Left(builder: nat, hook: nat)

  /** The events of the descent. */
  function Path(ps: seq<Plan>, i: nat, h: nat, f: Flow, rt: Runtime): seq<Event>
    requires i < |ps| && h <= |ps[i].hooks|
    decreases |ps| - i, |ps[i].hooks| - h
  {
    if h < |ps[i].hooks| then
      var e := ps[i].hooks[h].enter(f.passed);
      [Entered(i, h)] + (if e.Abort? then [] else Path(ps, i, h + 1, Enter(f, e), rt))
    else if Check(f.own, rt) != Passed then []
    else [Checked(i)] + PathFrom(ps, i + 1, rt)
  }

  function PathFrom(ps: seq<Plan>, i: nat, rt: Runtime): seq<Event>
    requires i <= |ps|
    decreases |ps| - i
  {
    if i == |ps| then [] else Path(ps, i, 0, Start(ps[i].draft), rt)
  }

  /** Every hook entered is left, the last one first. */
  function Unwind(p: seq<Event>): seq<Event>
  {
    if p == [] then []
    else Unwind(p[1..]) + (if p[0].Entered? then [Left(p[0].builder, p[0].hook)] else [])
  }

  function Trace(p: seq<Event>, reached: bool): seq<Event>
  {
    p + (if reached then [Inserted] else []) + Unwind(p)
  }

  lemma TraceStep(e: Event, p: seq<Event>, reached: bool)
    ensures e.Entered? ==> Trace([e] + p, reached) == [e] + Trace(p, reached) + [Left(e.builder, e.hook)]
    ensures !e.Entered? ==> Trace([e] + p, reached) == [e] + Trace(p, reached)
  {
    assert ([e] + p)[1..] == p;
  }

  /** The events of the whole call, from the descent into hook h of builder i to its return. */
  function Log(ps: seq<Plan>, i: nat, h: nat, f: Flow, rt: Runtime): seq<Event>
    requires i < |ps| && h <= |ps[i].hooks|
  {
    Trace(Path(ps, i, h, f, rt), Stop(ps, i, h, f, rt).None?)
  }

  lemma LogThroughHook(ps: seq<Plan>, i: nat, h: nat, f: Flow, rt: Runtime)
    requires i < |ps| && h < |ps[i].hooks|
    ensures var e := ps[i].hooks[h].enter(f.passed);
            Log(ps, i, h, f, rt) ==
            [Entered(i, h)] + (if e.Abort? then [] else Log(ps, i, h + 1, Enter(f, e), rt)) + [Left(i, h)]
  {
    hide Check, Trace;
    var e := ps[i].hooks[h].enter(f.passed);
    var p := if e.Abort? then [] else Path(ps, i, h + 1, Enter(f, e), rt);
    TraceStep(Entered(i, h), p, Stop(ps, i, h, f, rt).None?);
    NoTrace();
  }

  lemma NoTrace()
    ensures Trace([], false) == [] && Trace([], true) == [Inserted]
  {
  }

  lemma LogAtCore(ps: seq<Plan>, i: nat, f: Flow, rt: Runtime)
    requires i < |ps|
    ensures Log(ps, i, |ps[i].hooks|, f, rt) ==
            if Check(f.own, rt) != Passed then []
            else [Checked(i)] + (if i + 1 < |ps| then Log(ps, i + 1, 0, Start(ps[i + 1].draft), rt) else [Inserted])
  {
    hide Check, Trace;
    NoTrace();
    var p := PathFrom(ps, i + 1, rt);
    TraceStep(Checked(i), p, StopFrom(ps, i + 1, rt).None?);
    assert Check(f.own, rt) == Passed ==> Path(ps, i, |ps[i].hooks|, f, rt) == [Checked(i)] + p;
    if i + 1 < |ps| {
      assert p == Path(ps, i + 1, 0, Start(ps[i + 1].draft), rt);
    }
  }

  /** The error a hook raises on the way back from a written insert; the deepest one wins. */
  function Rejection(ps: seq<Plan>, i: nat, h: nat): Option<int>
    requires i < |ps| && h <= |ps[i].hooks|
    decreases |ps| - i, |ps[i].hooks| - h
  {
    if h < |ps[i].hooks| then
      var deeper := Rejection(ps, i, h + 1);
      if deeper.Some? then deeper else ps[i].hooks[h].reject
    else RejectionFrom(ps, i + 1)
  }

  function RejectionFrom(ps: seq<Plan>, i: nat): Option<int>
    requires i <= |ps|
    decreases |ps| - i
  {
    if i == |ps| then None else Rejection(ps, i, 0)
  }

  /** The draft a builder submits once its hooks have run. */
  function Submitted(hooks: seq<Hook>, f: Flow): Draft
  {
    match Run(hooks, f)
    case Success(g) => g.passed
    case Failure(_) => f.passed
  }

  function SubmittedFrom(ps: seq<Plan>, i: nat): (ds: seq<Draft>)
    requires i <= |ps|
    ensures |ds| == |ps| - i
    decreases |ps| - i
  {
    if i == |ps| then [] else [Submitted(ps[i].hooks, Start(ps[i].draft))] + SubmittedFrom(ps, i + 1)
  }

  /** The drafts that builder i, at hook h, and all builders after it submit. */
  function Batch(ps: seq<Plan>, i: nat, h: nat, f: Flow): (ds: seq<Draft>)
    requires i < |ps| && h <= |ps[i].hooks|
    ensures |ds| == |ps| - i
  {
    [Submitted(ps[i].hooks[h..], f)] + SubmittedFrom(ps, i + 1)
  }

  // ----- which builders the chain accepts

  /** The builder's hooks let it through and its mutation is valid when they have run. */
  predicate Accepted(p: Plan, rt: Runtime)
  {
    var r := Run(p.hooks, Start(p.draft));
    r.Success? && Check(r.value.own, rt) == Passed
  }

  lemma {:induction false} StopInside(ps: seq<Plan>, i: nat, h: nat, f: Flow, rt: Runtime)
    requires i < |ps| && h <= |ps[i].hooks|
    ensures match Run(ps[i].hooks[h..], f)
            case Failure(code) => Stop(ps, i, h, f, rt) == Some(Aborted(code))
            case Success(g) =>
              Stop(ps, i, h, f, rt) ==
              if Check(g.own, rt) != Passed then Some(Invalid(i, Check(g.own, rt))) else StopFrom(ps, i + 1, rt)
    decreases |ps[i].hooks| - h
  {
    hide Check;
    if h < |ps[i].hooks| {
      assert ps[i].hooks[h..][0] == ps[i].hooks[h] && ps[i].hooks[h..][1..] == ps[i].hooks[h + 1..];
      var e := ps[i].hooks[h].enter(f.passed);
      if !e.Abort? {
        StopInside(ps, i, h + 1, Enter(f, e), rt);
      }
    }
  }

  /** The insert is attempted if and only if every builder is accepted. */
  lemma {:induction false} InsertReachedExactly(ps: seq<Plan>, i: nat, rt: Runtime)
    requires i <= |ps|
    ensures StopFrom(ps, i, rt).None? <==> forall k :: i <= k < |ps| ==> Accepted(ps[k], rt)
    decreases |ps| - i
  {
    hide Check;
    if i < |ps| {
      InsertReachedExactly(ps, i + 1, rt);
      StopInside(ps, i, 0, Start(ps[i].draft), rt);
      assert ps[i].hooks[0..] == ps[i].hooks;
    }
  }

  /** A descent that stops names the first builder that is not accepted. */
  lemma {:induction false} FirstFailureWins(ps: seq<Plan>, i: nat, k: nat, rt: Runtime)
    requires i <= k < |ps| && !Accepted(ps[k], rt) && forall x :: i <= x < k ==> Accepted(ps[x], rt)
    ensures StopFrom(ps, i, rt) == StopFrom(ps, k, rt)
    ensures match Run(ps[k].hooks, Start(ps[k].draft))
            case Failure(code) => StopFrom(ps, i, rt) == Some(Aborted(code))
            case Success(g) => StopFrom(ps, i, rt) == Some(Invalid(k, Check(g.own, rt)))
    decreases k - i
  {
    hide Check;
    assert ps[i].hooks[0..] == ps[i].hooks;
    StopInside(ps, i, 0, Start(ps[i].draft), rt);
    if i < k {
      FirstFailureWins(ps, i + 1, k, rt);
    }
  }

  /** A hook that lets the chain pass does not change what the builders submit in the end. */
  lemma BatchThroughHook(ps: seq<Plan>, i: nat, h: nat, f: Flow, rt: Runtime)
    requires i < |ps| && h < |ps[i].hooks| && Stop(ps, i, h, f, rt).None?
    ensures Batch(ps, i, h, f) == Batch(ps, i, h + 1, Enter(f, ps[i].hooks[h].enter(f.passed)))
  {
    hide Check;
    StopInside(ps, i, h, f, rt);
    assert ps[i].hooks[h..][0] == ps[i].hooks[h] && ps[i].hooks[h..][1..] == ps[i].hooks[h + 1..];
  }

  // ----- the order of events

  /** Builder by builder: all hooks in list order, then the check. */
  function Descent(ps: seq<Plan>, i: nat, h: nat): seq<Event>
    requires i < |ps| && h <= |ps[i].hooks|
    decreases |ps| - i, |ps[i].hooks| - h
  {
    if h < |ps[i].hooks| then [Entered(i, h)] + Descent(ps, i, h + 1)
    else [Checked(i)] + (if i + 1 < |ps| then Descent(ps, i + 1, 0) else [])
  }

  /** Whatever the hooks do, the events run down a prefix of that order, and all of it
      exactly when the insert is reached. */
  lemma {:induction false} PathFollowsOrder(ps: seq<Plan>, i: nat, h: nat, f: Flow, rt: Runtime)
    requires i < |ps| && h <= |ps[i].hooks|
    ensures Path(ps, i, h, f, rt) <= Descent(ps, i, h)
    ensures Stop(ps, i, h, f, rt).None? <==> Path(ps, i, h, f, rt) == Descent(ps, i, h)
    decreases |ps| - i, |ps[i].hooks| - h
  {
    hide Check;
    if h < |ps[i].hooks| {
      var e := ps[i].hooks[h].enter(f.passed);
      if e.Abort? {
        DescentNotEmpty(ps, i, h + 1);
      } else {
        PathFollowsOrder(ps, i, h + 1, Enter(f, e), rt);
      }
    } else if i + 1 < |ps| && Check(f.own, rt) == Passed {
      PathFollowsOrder(ps, i + 1, 0, Start(ps[i + 1].draft), rt);
    }
  }

  lemma DescentNotEmpty(ps: seq<Plan>, i: nat, h: nat)
    requires i < |ps| && h <= |ps[i].hooks|
    ensures Descent(ps, i, h) != []
  {
  }

  /** Reads a trace with a stack of open hooks: the insert only when nothing is being left,
      every exit closes the hook opened last. */
  predicate Bracketed(t: seq<Event>, open: seq<Event>)
    decreases |t|
  {
    if t == [] then open == []
    else match t[0]
      case Entered(_, _) => Bracketed(t[1..], open + [t[0]])
      case Left(b, h) => open != [] && open[|open| - 1] == Entered(b, h) && Bracketed(t[1..], open[..|open| - 1])
      case _ => Bracketed(t[1..], open)
  }

  /** Every run is well bracketed, reached or not. */
  lemma {:induction false} TraceIsBracketed(p: seq<Event>, reached: bool, open: seq<Event>, rest: seq<Event>)
    requires forall k :: 0 <= k < |p| ==> p[k].Entered? || p[k].Checked?
    ensures Bracketed(Trace(p, reached) + rest, open) == Bracketed(rest, open)
    decreases |p|
  {
    if p == [] {
      if reached {
        assert (Trace(p, reached) + rest)[1..] == rest;
      } else {
        assert Trace(p, reached) + rest == rest;
      }
    } else {
      var e, q := p[0], p[1..];
      assert p == [e] + q;
      TraceStep(e, q, reached);
      if e.Entered? {
        var left := [Left(e.builder, e.hook)] + rest;
        assert Trace(p, reached) + rest == [e] + (Trace(q, reached) + left);
        TraceIsBracketed(q, reached, open + [e], left);
        assert left[1..] == rest && (open + [e])[..|open|] == open;
      } else {
        assert Trace(p, reached) + rest == [e] + (Trace(q, reached) + rest);
        TraceIsBracketed(q, reached, open, rest);
      }
    }
  }

  /** The insert happens at most once and after every check and every entry. */
  lemma {:induction false} InsertOnceAfterChecks(ps: seq<Plan>, rt: Runtime)
    requires |ps| > 0
    ensures var p := PathFrom(ps, 0, rt);
            var reached := StopFrom(ps, 0, rt).None?;
            var t := Trace(p, reached);
            && (forall k :: 0 <= k < |t| ==> (t[k].Inserted? <==> reached && k == |p|))
            && Bracketed(t, [])
            && (reached ==> forall i :: 0 <= i < |ps| ==> Checked(i) in t[..|p|])
  {
    var f := Start(ps[0].draft);
    var p := PathFrom(ps, 0, rt);
    var reached := StopFrom(ps, 0, rt).None?;
    assert p == Path(ps, 0, 0, f, rt);
    PathKinds(ps, 0, 0, f, rt);
    UnwindKinds(p);
    TraceIsBracketed(p, reached, [], []);
    assert Trace(p, reached) + [] == Trace(p, reached);
    PathFollowsOrder(ps, 0, 0, f, rt);
    if reached {
      forall i | 0 <= i < |ps| ensures Checked(i) in p {
        DescentChecks(ps, 0, 0, i);
      }
      assert Trace(p, reached)[..|p|] == p;
    }
  }

  lemma {:induction false} PathKinds(ps: seq<Plan>, i: nat, h: nat, f: Flow, rt: Runtime)
    requires i < |ps| && h <= |ps[i].hooks|
    ensures forall k :: 0 <= k < |Path(ps, i, h, f, rt)| ==> Path(ps, i, h, f, rt)[k].Entered? || Path(ps, i, h, f, rt)[k].Checked?
    decreases |ps| - i, |ps[i].hooks| - h
  {
    hide Check;
    if h < |ps[i].hooks| {
      var e := ps[i].hooks[h].enter(f.passed);
      if !e.Abort? {
        PathKinds(ps, i, h + 1, Enter(f, e), rt);
      }
    } else if i + 1 < |ps| && Check(f.own, rt) == Passed {
      PathKinds(ps, i + 1, 0, Start(ps[i + 1].draft), rt);
      assert PathFrom(ps, i + 1, rt) == Path(ps, i + 1, 0, Start(ps[i + 1].draft), rt);
    }
  }

  lemma UnwindKinds(p: seq<Event>)
    ensures forall k :: 0 <= k < |Unwind(p)| ==> Unwind(p)[k].Left?
  {
  }

  lemma {:induction false} DescentChecks(ps: seq<Plan>, i: nat, h: nat, k: nat)
    requires i < |ps| && h <= |ps[i].hooks| && i <= k < |ps|
    ensures Checked(k) in Descent(ps, i, h)
    decreases |ps| - i, |ps[i].hooks| - h
  {
    if h < |ps[i].hooks| {
      DescentChecks(ps, i, h + 1, k);
    } else if i < k {
      DescentChecks(ps, i + 1, 0, k);
    }
  }

  // ----- rejections on the way back

  predicate NeverRejects(p: Plan)
  {
    forall h :: 0 <= h < |p.hooks| ==> p.hooks[h].reject.None?
  }

  /** A written batch is reported as saved exactly when no hook rejects it. */
  lemma {:induction false} NoRejectionExactly(ps: seq<Plan>, i: nat, h: nat)
    requires i < |ps| && h <= |ps[i].hooks|
    ensures Rejection(ps, i, h).None? <==>
            && (forall x :: h <= x < |ps[i].hooks| ==> ps[i].hooks[x].reject.None?)
            && (forall k :: i < k < |ps| ==> NeverRejects(ps[k]))
    decreases |ps| - i, |ps[i].hooks| - h
  {
    if h < |ps[i].hooks| {
      NoRejectionExactly(ps, i, h + 1);
    } else if i + 1 < |ps| {
      NoRejectionExactly(ps, i + 1, 0);
    }
  }

  /** The hook that is left first, the deepest one that rejects, gives the error. */
  lemma {:induction false} DeepestRejects(ps: seq<Plan>, i: nat, h: nat) returns (k: nat, x: nat)
    requires i < |ps| && h <= |ps[i].hooks| && Rejection(ps, i, h).Some?
    ensures i <= k < |ps| && (k == i ==> h <= x) && x < |ps[k].hooks| && Rejection(ps, i, h) == ps[k].hooks[x].reject
    ensures forall y :: x < y < |ps[k].hooks| ==> ps[k].hooks[y].reject.None?
    ensures forall m :: k < m < |ps| ==> NeverRejects(ps[m])
    decreases |ps| - i, |ps[i].hooks| - h
  {
    if h == |ps[i].hooks| {
      k, x := DeepestRejects(ps, i + 1, 0);
    } else if Rejection(ps, i, h + 1).Some? {
      k, x := DeepestRejects(ps, i, h + 1);
    } else {
      k, x := i, h;
      NoRejectionExactly(ps, i, h + 1);
    }
  }

  lemma {:induction false} LaterRejection(ps: seq<Plan>, i: nat, k: nat)
    requires i <= k <= |ps| && RejectionFrom(ps, i).None?
    ensures RejectionFrom(ps, k).None?
    decreases k - i
  {
    if i < k {
      NoRejectionExactly(ps, i, 0);
      if i + 1 < |ps| {
        NoRejectionExactly(ps, i + 1, 0);
      }
      LaterRejection(ps, i + 1, k);
    }
  }

  /** The insert was reached and the database took the batch. */
  predicate Written(stop: Option<SaveError>, err: Option<SaveError>)
  {
    stop.None? && !(err.Some? && err.value.InsertFailed?)
  }

  /** How Save ends: the reason the descent stopped, the database's refusal, or the rejection
      of a hook on the way back. */
  predicate Ends(stop: Option<SaveError>, rejection: Option<int>, err: Option<SaveError>)
  {
    match stop
    case Some(_) => err == stop
    case None =>
      || (err.Some? && err.value.InsertFailed?)
      || err == (if rejection.Some? then Some(Aborted(rejection.value)) else None)
  }

  /** An error means that nothing was written, if and only if some builder is not accepted or
      no hook rejects what next returned. */
  lemma ErrorWritesNothingExactly(ps: seq<Plan>, rt: Runtime)
    ensures (forall err: Option<SaveError> ::
               Ends(StopFrom(ps, 0, rt), RejectionFrom(ps, 0), err) && err.Some? ==> !Written(StopFrom(ps, 0, rt), err))
            <==> (exists k :: 0 <= k < |ps| && !Accepted(ps[k], rt)) || (forall k :: 0 <= k < |ps| ==> NeverRejects(ps[k]))
  {
    hide Check, StopFrom, RejectionFrom, Accepted, NeverRejects;
    InsertReachedExactly(ps, 0, rt);
    NobodyRejectsExactly(ps);
    var rejection := RejectionFrom(ps, 0);
    if StopFrom(ps, 0, rt).None? && rejection.Some? {
      var err := Some(Aborted(rejection.value));
      assert Ends(StopFrom(ps, 0, rt), rejection, err) && Written(StopFrom(ps, 0, rt), err);
    }
  }

  lemma NobodyRejectsExactly(ps: seq<Plan>)
    ensures RejectionFrom(ps, 0).None? <==> forall k :: 0 <= k < |ps| ==> NeverRejects(ps[k])
  {
    if |ps| > 0 {
      NoRejectionExactly(ps, 0, 0);
    }
  }

  // ----- what a swapped mutation gets away with

  /** A hook that overwrites the fields of whatever mutation it is given. */
  function Overwrite(d: Draft): Hook
  {
    Hook(_ => Edit(d), None)
  }

  lemma {:induction false} RunAppended(hooks: seq<Hook>, last: Hook, f: Flow)
    ensures Run(hooks + [last], f) ==
            match Run(hooks, f)
            case Failure(code) => Failure(code)
            case Success(g) => Run([last], g)
    decreases |hooks|
  {
    if hooks == [] {
      assert hooks + [last] == [last];
    } else {
      assert (hooks + [last])[0] == hooks[0] && (hooks + [last])[1..] == hooks[1..] + [last];
      var e := hooks[0].enter(f.passed);
      if !e.Abort? {
        RunAppended(hooks[1..], last, Enter(f, e));
      }
    }
  }

  lemma {:induction false} UnswappedIsOne(hooks: seq<Hook>, f: Flow)
    requires !f.swapped ==> f.own == f.passed
    ensures var r := Run(hooks, f); r.Success? && !r.value.swapped ==> r.value.own == r.value.passed
    decreases |hooks|
  {
    if hooks != [] && !hooks[0].enter(f.passed).Abort? {
      UnswappedIsOne(hooks[1..], Enter(f, hooks[0].enter(f.passed)));
    }
  }

  lemma AppendedOverwrite(p: Plan, d: Draft, rt: Runtime)
    requires Accepted(p, rt)
    ensures var g := Run(p.hooks, Start(p.draft)).value;
            var q := p.(hooks := p.hooks + [Overwrite(d)]);
            && Run(q.hooks, Start(q.draft)) == Success(if g.swapped then g.(passed := d) else Flow(d, d, false))
            && Submitted(q.hooks, Start(q.draft)) == d
            && (Accepted(q, rt) <==> g.swapped || Check(d, rt) == Passed)
  {
    hide Check;
    var g := Run(p.hooks, Start(p.draft)).value;
    RunAppended(p.hooks, Overwrite(d), Start(p.draft));
    assert Run([Overwrite(d)], g) == Success(Enter(g, Edit(d))) by {
      assert [Overwrite(d)][1..] == [];
    }
  }

  /** check looks at the builder's own mutation before the builder takes over the one it was
      handed. So what reaches the insert has passed check however later hooks edit it, if
      and only if no hook has swapped the mutation. */
  lemma SubmitsOnlyCheckedExactly(p: Plan, rt: Runtime)
    requires Accepted(p, rt)
    ensures (forall d :: var q := p.(hooks := p.hooks + [Overwrite(d)]);
                         Accepted(q, rt) ==> Check(Submitted(q.hooks, Start(q.draft)), rt) == Passed)
            <==> !Run(p.hooks, Start(p.draft)).value.swapped
  {
    hide Check;
    var g := Run(p.hooks, Start(p.draft)).value;
    if g.swapped {
      var bad := g.own.(name := None);
      NamelessFails(bad, rt);
      AppendedOverwrite(p, bad, rt);
    } else {
      forall d ensures var q := p.(hooks := p.hooks + [Overwrite(d)]);
                       Accepted(q, rt) ==> Check(Submitted(q.hooks, Start(q.draft)), rt) == Passed
      {
        AppendedOverwrite(p, d, rt);
      }
    }
  }

  lemma NamelessFails(d: Draft, rt: Runtime)
    requires d.name.None?
    ensures Check(d, rt) != Passed
  {
  }

  /** Without a swap the submitted draft is the checked one. */
  lemma UnswappedSubmitsChecked(p: Plan, rt: Runtime)
    requires Accepted(p, rt) && !Run(p.hooks, Start(p.draft)).value.swapped
    ensures Check(Submitted(p.hooks, Start(p.draft)), rt) == Passed
  {
    hide Check;
    UnswappedIsOne(p.hooks, Start(p.draft));
  }

  /** Hooks that leave the mutation alone. */
  ghost predicate Inert(hooks: seq<Hook>)
  {
    forall h, d :: 0 <= h < |hooks| ==> hooks[h].enter(d) == Edit(d)
  }

  lemma {:induction false} InertRun(hooks: seq<Hook>, d: Draft)
    requires Inert(hooks)
    ensures Run(hooks, Start(d)) == Success(Start(d))
    decreases |hooks|
  {
    if hooks != [] {
      assert hooks[0].enter(d) == Edit(d);
      InertRun(hooks[1..], d);
    }
  }

  /** Save throws away the error of defaults. With inert hooks that is harmless: the insert is
      reached if and only if every builder's defaults completed and what its caller supplied
      is in order. */
  lemma DefaultsErrorIsHarmless(own: seq<Draft>, ps: seq<Plan>, rt: Runtime)
    requires rt.statusOK(rt.status)
    requires |own| == |ps| && forall k :: 0 <= k < |ps| ==> Inert(ps[k].hooks) && ps[k].draft == Defaulted(own[k], rt)
    ensures StopFrom(ps, 0, rt).None? <==>
            forall k :: 0 <= k < |ps| ==> FirstUninitialized(own[k], rt).None? && SuppliedOK(own[k], rt)
  {
    hide Check, Defaulted, FirstUninitialized, SuppliedOK;
    InsertReachedExactly(ps, 0, rt);
    forall k | 0 <= k < |ps|
      ensures Accepted(ps[k], rt) <==> FirstUninitialized(own[k], rt).None? && SuppliedOK(own[k], rt)
    {
      InertRun(ps[k].hooks, ps[k].draft);
      CheckAfterDefaults(own[k], rt);
    }
  }
}
