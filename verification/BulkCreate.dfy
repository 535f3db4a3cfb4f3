/** Creating accounts in bulk: n builders, each with its own hooks, saved by one insert. */
module BulkCreate {
  import opened Wrappers
  import opened AccountSchema
  import opened AccountCodec
  import opened AccountGraph
  import opened AccountDefaults
  import opened AccountFields
  import opened BulkChain

  /** What createSpec hands to the insert; id is filled in by it, if the driver reports one. */
  datatype Spec = Spec(cells: Column -> Cell, id: Option<int>)

  /** A row as the insert wrote it, under its ID, and whether the driver reported that ID; the
      table completes the row with its column defaults, as AccountCodec.StoredCell says. */
  datatype Stored = Stored(id: int, cells: Column -> Cell, reported: bool) {
    function ReportedID(): Option<int>
    {
      if reported then Some(id) else None
    }
  }

  function SpecCells(d: Draft, j: Json): Column -> Cell
  {
    c => SpecCell(d, c, j)
  }

  function NewSpec(d: Draft, j: Json): Spec
  {
    Spec(SpecCells(d, j), None)
  }

  /** The values decode, column by column, to the fields of the row under any ID. */
  ghost predicate Describes(cells: Column -> Cell, r: Row, j: Json)
  {
    forall id: int, c: Column :: Represents(if c.ID? then IntCell(id) else cells(c), r.(id := id), c, j)
  }

  /** Spec k of a written batch is row k of it, and holds its ID if the driver reported it. */
  ghost predicate Wrote(rows: seq<Stored>, before: seq<Option<Spec>>, after: seq<Option<Spec>>)
  {
    && |rows| == |before| == |after|
    && forall k :: 0 <= k < |rows| ==>
         && before[k].Some? && after[k].Some?
         && rows[k].cells == before[k].value.cells == after[k].value.cells
         && after[k].value.id == rows[k].ReportedID()
  }

  /** The batch is in the database behind the rows that were there. */
  ghost predicate Appended(before: seq<Stored>, after: seq<Stored>, filled: seq<Option<Spec>>, specs: seq<Option<Spec>>)
  {
    |before| <= |after| && after[..|before|] == before && Wrote(after[|before|..], filled, specs)
  }

  class Database {
    var rows: seq<Stored>

    /** The trusted insert: it fails and writes nothing, or writes every spec. */
    method BatchCreate(specs: array<Option<Spec>>) returns (err: Option<SaveError>)
      requires forall k :: 0 <= k < specs.Length ==> specs[k].Some?
      modifies this`rows, specs
      ensures err.Some? ==> err.value.InsertFailed? && rows == old(rows) && specs[..] == old(specs[..])
      ensures err.None? ==> Appended(old(rows), rows, old(specs[..]), specs[..])
    {
      if * {
        var code: int := *;
        return Some(InsertFailed(code));
      }
      ghost var was := rows;
      for k := 0 to specs.Length
        invariant |rows| == |was| + k && rows[..|was|] == was
        invariant forall x :: k <= x < specs.Length ==> specs[x] == old(specs[x])
        invariant Wrote(rows[|was|..], old(specs[..k]), specs[..k])
      {
        var id: int := *;
        var reported: bool := *;
        rows := rows + [Stored(id, specs[k].value.cells, reported)];
        specs[k] := Some(specs[k].value.(id := if reported then Some(id) else None));
      }
      assert old(specs[..specs.Length]) == old(specs[..]);
      err := None;
    }
  }

  class AccountCreate {
    var mutation: Mutation
    const hooks: seq<Hook>

    constructor (mutation: Mutation, hooks: seq<Hook>)
      ensures this.mutation == mutation && this.hooks == hooks
    {
      this.mutation, this.hooks := mutation, hooks;
    }

    /** createSpec: the spec sends every value the draft supplies and nothing else, and the node
        carries the same values; so whatever ID the insert reports, the one describes the other. */
    method CreateSpec(j: Json) returns (node: Account, spec: Spec)
      ensures Sends(spec.cells, mutation.draft, j) && Carries(node.row, mutation.draft)
      ensures Describes(spec.cells, node.row, j)
      ensures spec.id == None && node.row.id == 0
      ensures fresh(node) && node.row == SpecNode(mutation.draft)
      ensures spec == NewSpec(mutation.draft, j)
    {
      node := new Account();
      node.row := SpecNode(mutation.draft);
      spec := Spec(SpecCells(mutation.draft, j), None);
      hide SpecNode, SpecCell, Represents;
      SpecHasNoID(mutation.draft);
      RecordsDraft(mutation.draft, None, j);
      FreshNodeRow(mutation.draft);
      forall id: int, c: Column ensures Represents(if c.ID? then IntCell(id) else spec.cells(c), node.row.(id := id), c, j) {
        SpecRepresentsNode(mutation.draft, id, c, j);
      }
    }
  }

  /** The node's row once the database has reported an ID, or has not. */
  function NodeRow(d: Draft, id: Option<int>): Row
  {
    SpecNode(d).(id := id.GetOr(0))
  }

  lemma FreshNodeRow(d: Draft)
    ensures NodeRow(d, None) == SpecNode(d)
  {
  }

  lemma RecordsDraft(d: Draft, id: Option<int>, j: Json)
    ensures Sends(SpecCells(d, j), d, j)
    ensures Carries(NodeRow(d, id), d) && NodeRow(d, id).id == id.GetOr(0)
  {
    hide SpecNode, SpecCell, Supplied, CellOf, Holds, FieldOf;
    forall c: Column {
      SpecSends(d, c, j);
    }
    NodeCarries(d, id.GetOr(0));
  }

  function NewSpecs(ds: seq<Draft>, j: Json): (specs: seq<Option<Spec>>)
    ensures |specs| == |ds|
    ensures forall k :: 0 <= k < |ds| ==> specs[k] == Some(NewSpec(ds[k], j))
  {
    seq(|ds|, k requires 0 <= k < |ds| => Some(NewSpec(ds[k], j)))
  }

  /** A builder whose spec was written; confirmed says that no later hook rejected it. */
  ghost predicate Saved(b: AccountCreate, d: Draft, spec: Option<Spec>, node: Account?, confirmed: bool)
    reads b`mutation, b.mutation, (if node == null then {} else {node})`row
  {
    && node != null && spec.Some?
    && b.mutation.draft == d
    && b.mutation.done == confirmed
    && b.mutation.id == (if confirmed then node else null)
    && node.row == NodeRow(d, if confirmed then spec.value.id else None)
  }

  /** Row s of the table holds what the draft of b supplies; a confirmed builder also has its node,
      with the same values, under the ID of that row if the driver reported it, and else without an ID. */
  ghost predicate SavedAs(b: AccountCreate, d: Draft, s: Stored, confirmed: bool, j: Json)
    reads b`mutation, b.mutation, (if b.mutation.id == null then {} else {b.mutation.id})`row
  {
    && Sends(s.cells, d, j)
    && b.mutation.draft == d
    && b.mutation.done == confirmed
    && (if confirmed then
          b.mutation.id != null && Carries(b.mutation.id.row, d) && b.mutation.id.row.id == s.ReportedID().GetOr(0)
        else b.mutation.id == null)
  }

  ghost predicate Untouched(m: Mutation)
    reads m`done, m`id
  {
    !m.done && m.id == null
  }

  lemma BatchRows(before: seq<Stored>, after: seq<Stored>, ds: seq<Draft>, specs: seq<Option<Spec>>, j: Json)
    requires Appended(before, after, NewSpecs(ds, j), specs)
    ensures |after| == |before| + |ds| && |specs| == |ds| && after[..|before|] == before
  {
  }

  lemma BatchRow(before: seq<Stored>, after: seq<Stored>, ds: seq<Draft>, specs: seq<Option<Spec>>, k: nat, j: Json)
    requires Appended(before, after, NewSpecs(ds, j), specs) && k < |ds|
    ensures |after| == |before| + |ds| && |specs| == |ds| && specs[k].Some?
    ensures var row := after[|before| + k];
            row.cells == SpecCells(ds[k], j) && specs[k].value.id == row.ReportedID()
  {
    hide SpecCells;
    assert after[|before|..][k] == after[|before| + k];
  }

  lemma SavedRow(b: AccountCreate, d: Draft, spec: Spec, node: Account?, s: Stored, confirmed: bool, j: Json)
    requires Saved(b, d, Some(spec), node, confirmed)
    requires s.cells == SpecCells(d, j) && spec.id == s.ReportedID()
    ensures SavedAs(b, d, s, confirmed, j)
  {
    RecordsDraft(d, spec.id, j);
    hide NodeRow, SpecCells, Sends, Carries;
  }

  lemma ConfirmedNode(b: AccountCreate, d: Draft, spec: Option<Spec>, node: Account?)
    requires Saved(b, d, spec, node, true)
    ensures b.mutation.done && b.mutation.id == node
  {
  }

  class AccountCreateBulk {
    const builders: seq<AccountCreate>
    const err: Option<SaveError>
    const store: Database
    const rt: Runtime
    const j: Json
    constructor (builders: seq<AccountCreate>, err: Option<SaveError>, store: Database, rt: Runtime, j: Json)
      ensures this.builders == builders && this.err == err && this.store == store && this.rt == rt && this.j == j
    {
      this.builders, this.err, this.store, this.rt, this.j := builders, err, store, rt, j;
    }

    ghost function Builders(lo: nat): set<AccountCreate>
    {
      set k | lo <= k < |builders| :: builders[k]
    }

    ghost function Mutations(lo: nat): set<Mutation>
      reads Builders(lo)`mutation
    {
      set k | lo <= k < |builders| :: builders[k].mutation
    }

    ghost predicate Distinct(lo: nat)
      reads Builders(lo)`mutation
    {
      forall a, b :: lo <= a < b < |builders| ==> builders[a] != builders[b] && builders[a].mutation != builders[b].mutation
    }

    /** The builders from lo on are still as the plan says, nothing of them saved. */
    ghost predicate Pending(lo: nat, ps: seq<Plan>)
      reads Builders(lo)`mutation, Mutations(lo)
    {
      && |ps| == |builders| && Distinct(lo)
      && forall k :: lo <= k < |builders| ==>
           ps[k] == Plan(builders[k].hooks, builders[k].mutation.draft) && Untouched(builders[k].mutation)
    }

    /** Mutator i, from hook h on, is about to be called with m. */
    ghost predicate Ready(i: nat, h: nat, m: Mutation, specs: array<Option<Spec>>, nodes: array<Account?>, ps: seq<Plan>, f: Flow)
      reads Builders(i)`mutation, Mutations(i), m, specs
    {
      && |ps| == |builders| && i < |ps| && h <= |ps[i].hooks| && ps[i].hooks == builders[i].hooks
      && specs.Length == nodes.Length == |builders|
      && Distinct(i) && Pending(i + 1, ps)
      && m !in Mutations(i + 1)
      && Untouched(m) && Untouched(builders[i].mutation)
      && f == Flow(builders[i].mutation.draft, m.draft, m != builders[i].mutation)
      && forall k :: 0 <= k < i ==> specs[k].Some?
    }

    ghost predicate AllSaved(lo: nat, ds: seq<Draft>, specs: array<Option<Spec>>, nodes: array<Account?>, ps: seq<Plan>)
      requires |ps| == |builders| == specs.Length == nodes.Length
      requires lo <= |ps| && |ds| == |ps| - lo
      reads Builders(lo)`mutation, Mutations(lo), specs, nodes, (set k | lo <= k < nodes.Length :: nodes[k])`row
    {
      forall k :: lo <= k < |ps| ==>
        Saved(builders[k], ds[k - lo], specs[k], nodes[k], RejectionFrom(ps, k + 1).None?)
    }

    ghost predicate NoneSaved(lo: nat)
      reads Builders(lo)`mutation, Mutations(lo)
    {
      forall k :: lo <= k < |builders| ==> Untouched(builders[k].mutation)
    }

    /** How a call of mutator i from hook h on ends, from the rows and specs it began with. */
    ghost predicate Ran(rows: seq<Stored>, filled: seq<Option<Spec>>, i: nat, h: nat, m: Mutation,
                        specs: array<Option<Spec>>, nodes: array<Account?>, ps: seq<Plan>, f: Flow, err: Option<SaveError>)
      requires |ps| == |builders| == specs.Length == nodes.Length && i < |ps| && h <= |ps[i].hooks|
      reads store`rows, Builders(i)`mutation, Mutations(i), m, specs, nodes, (set k | i <= k < nodes.Length :: nodes[k])`row
    {
      var stop := Stop(ps, i, h, f, rt);
      && Ends(stop, Rejection(ps, i, h), err)
      && (if Written(stop, err) then
            && Appended(rows, store.rows, filled + NewSpecs(Batch(ps, i, h, f), j), specs[..])
            && AllSaved(i, Batch(ps, i, h, f), specs, nodes, ps)
          else store.rows == rows && NoneSaved(i) && Untouched(m))
    }

    /** Passing through a hook on the way back. */
    lemma HookLeft(rows: seq<Stored>, filled: seq<Option<Spec>>, i: nat, h: nat, m: Mutation, inner: Mutation,
                   specs: array<Option<Spec>>, nodes: array<Account?>, ps: seq<Plan>, f: Flow, err: Option<SaveError>)
      requires |ps| == |builders| == specs.Length == nodes.Length && i < |ps| && h < |ps[i].hooks|
      requires var e := ps[i].hooks[h].enter(f.passed);
               !e.Abort? && Ran(rows, filled, i, h + 1, inner, specs, nodes, ps, Enter(f, e), err)
      requires m == inner || Untouched(m)
      ensures var reject := ps[i].hooks[h].reject;
              var out := if err.None? && reject.Some? then Some(Aborted(reject.value)) else err;
              && Ran(rows, filled, i, h, m, specs, nodes, ps, f, out)
              && (Written(Stop(ps, i, h, f, rt), out) <==>
                  Written(Stop(ps, i, h + 1, Enter(f, ps[i].hooks[h].enter(f.passed)), rt), err))
    {
      hide Check, AllSaved, Appended, NoneSaved, Untouched, NewSpecs, Run;
      var e := ps[i].hooks[h].enter(f.passed);
      if Stop(ps, i, h, f, rt).None? {
        BatchThroughHook(ps, i, h, f, rt);
      }
    }

    lemma HookAborts(rows: seq<Stored>, filled: seq<Option<Spec>>, i: nat, h: nat, m: Mutation,
                     specs: array<Option<Spec>>, nodes: array<Account?>, ps: seq<Plan>, f: Flow)
      requires |ps| == |builders| == specs.Length == nodes.Length && i < |ps| && h < |ps[i].hooks|
      requires ps[i].hooks[h].enter(f.passed).Abort? && store.rows == rows && NoneSaved(i) && Untouched(m)
      ensures Ran(rows, filled, i, h, m, specs, nodes, ps, f, Some(Aborted(ps[i].hooks[h].enter(f.passed).code)))
      ensures Stop(ps, i, h, f, rt).Some?
    {
      hide Check, AllSaved, Appended, NoneSaved, Untouched, NewSpecs, Batch;
    }

    lemma CheckFails(rows: seq<Stored>, filled: seq<Option<Spec>>, i: nat, m: Mutation,
                     specs: array<Option<Spec>>, nodes: array<Account?>, ps: seq<Plan>, f: Flow)
      requires |ps| == |builders| == specs.Length == nodes.Length && i < |ps|
      requires Check(f.own, rt) != Passed && store.rows == rows && NoneSaved(i) && Untouched(m)
      ensures Ran(rows, filled, i, |ps[i].hooks|, m, specs, nodes, ps, f, Some(Invalid(i, Check(f.own, rt))))
      ensures Stop(ps, i, |ps[i].hooks|, f, rt).Some?
    {
      hide Check, AllSaved, Appended, NoneSaved, Untouched, NewSpecs, Batch;
    }

    lemma NothingSavedYet(i: nat, h: nat, m: Mutation, specs: array<Option<Spec>>, nodes: array<Account?>, ps: seq<Plan>, f: Flow)
      requires Ready(i, h, m, specs, nodes, ps, f)
      ensures NoneSaved(i) && Untouched(m)
    {
    }

    /** One call of mutator i wrapped in its hooks from h on. */
    method Mutate(i: nat, h: nat, m: Mutation, specs: array<Option<Spec>>, nodes: array<Account?>, ghost ps: seq<Plan>, ghost f: Flow)
      returns (err: Option<SaveError>, ghost log: seq<Event>)
      requires Ready(i, h, m, specs, nodes, ps, f)
      modifies store`rows, specs, nodes, m, Builders(i)`mutation, Mutations(i + 1)
      ensures log == Log(ps, i, h, f, rt)
      ensures Ran(old(store.rows), old(specs[..i]), i, h, m, specs, nodes, ps, f, err)
      ensures forall k :: 0 <= k < i ==> nodes[k] == old(nodes[k])
      ensures Written(Stop(ps, i, h, f, rt), err) ==> forall k :: i <= k < nodes.Length ==> fresh(nodes[k])
      ensures builders[i].mutation in {old(builders[i].mutation), m} || fresh(builders[i].mutation)
      ensures forall b :: b in Builders(i + 1) ==> b.mutation in old(Mutations(i + 1)) || fresh(b.mutation)
      decreases |builders| - i, |builders[i].hooks| - h + 1
    {
      hide Check, AllSaved, NoneSaved, Appended, Ran, Run, Batch, Stop, Rejection, Path, Log, Ends;
      if h == |builders[i].hooks| {
        err, log := Core(i, m, specs, nodes, ps, f);
      } else {
        NothingSavedYet(i, h, m, specs, nodes, ps, f);
        var hook := builders[i].hooks[h];
        var e := hook.enter(m.draft);
        if e.Abort? {
          err := Some(Aborted(e.code));
          log := [];
          HookAborts(store.rows, specs[..i], i, h, m, specs, nodes, ps, f);
        } else {
          var inner := m;
          if e.Edit? {
            m.draft := e.draft;
          } else {
            inner := new Mutation(e.draft);
          }
          err, log := Mutate(i, h + 1, inner, specs, nodes, ps, Enter(f, e));
          HookLeft(old(store.rows), old(specs[..i]), i, h, m, inner, specs, nodes, ps, f, err);
          if err.None? && hook.reject.Some? {
            err := Some(Aborted(hook.reject.value));
          }
        }
        LogThroughHook(ps, i, h, f, rt);
        log := [Entered(i, h)] + log + [Left(i, h)];
      }
    }
  
    /** How the builders from lo on end, lo being past the last one when only the insert is left. */
    ghost predicate RanFrom(rows: seq<Stored>, filled: seq<Option<Spec>>, lo: nat,
                            specs: array<Option<Spec>>, nodes: array<Account?>, ps: seq<Plan>, err: Option<SaveError>)
      requires |ps| == |builders| == specs.Length == nodes.Length && lo <= |ps|
      reads store`rows, Builders(lo)`mutation, Mutations(lo), specs, nodes, (set k | lo <= k < nodes.Length :: nodes[k])`row
    {
      var stop := StopFrom(ps, lo, rt);
      && Ends(stop, RejectionFrom(ps, lo), err)
      && (if Written(stop, err) then
            && Appended(rows, store.rows, filled + NewSpecs(SubmittedFrom(ps, lo), j), specs[..])
            && AllSaved(lo, SubmittedFrom(ps, lo), specs, nodes, ps)
          else store.rows == rows && NoneSaved(lo))
    }

    lemma ReadyNext(i: nat, specs: array<Option<Spec>>, nodes: array<Account?>, ps: seq<Plan>)
      requires specs.Length == nodes.Length == |builders| && i + 1 < |builders|
      requires Pending(i + 1, ps) && forall k :: 0 <= k <= i ==> specs[k].Some?
      ensures Ready(i + 1, 0, builders[i + 1].mutation, specs, nodes, ps, Start(ps[i + 1].draft))
    {
    }

    lemma RanNext(rows: seq<Stored>, filled: seq<Option<Spec>>, i: nat, m: Mutation,
                  specs: array<Option<Spec>>, nodes: array<Account?>, ps: seq<Plan>, err: Option<SaveError>)
      requires |ps| == |builders| == specs.Length == nodes.Length && i < |ps|
      requires Ran(rows, filled, i, 0, m, specs, nodes, ps, Start(ps[i].draft), err)
      ensures RanFrom(rows, filled, i, specs, nodes, ps, err)
    {
      hide Check, AllSaved, Appended, NoneSaved, Untouched, NewSpecs, Submitted;
      assert ps[i].hooks[0..] == ps[i].hooks;
      assert Batch(ps, i, 0, Start(ps[i].draft)) == SubmittedFrom(ps, i);
    }

    lemma InsertRan(rows: seq<Stored>, filled: seq<Option<Spec>>, specs: array<Option<Spec>>, nodes: array<Account?>,
                    ps: seq<Plan>, err: Option<SaveError>)
      requires |ps| == |builders| == specs.Length == nodes.Length
      requires err.Some? ==> err.value.InsertFailed? && store.rows == rows
      requires err.None? ==> Appended(rows, store.rows, filled, specs[..])
      ensures RanFrom(rows, filled, |ps|, specs, nodes, ps, err)
    {
      hide Appended;
      assert filled + NewSpecs([], j) == filled;
    }

    lemma CoreLeft(rows: seq<Stored>, filled: seq<Option<Spec>>, i: nat, m: Mutation,
                   node: Account, specs: array<Option<Spec>>, nodes: array<Account?>, ps: seq<Plan>, f: Flow, err: Option<SaveError>)
      requires |ps| == |builders| == specs.Length == nodes.Length && i < |ps| && |filled| == i
      requires RanFrom(rows, filled + [Some(NewSpec(f.passed, j))], i + 1, specs, nodes, ps, err)
      requires Check(f.own, rt) == Passed && builders[i].mutation == m && nodes[i] == node && m.draft == f.passed
      requires err.None? ==> specs[i].Some? && m.done && m.id == node && node.row == NodeRow(f.passed, specs[i].value.id)
      requires err.Some? ==> Untouched(m) && node.row == SpecNode(f.passed)
      ensures Stop(ps, i, |ps[i].hooks|, f, rt) == StopFrom(ps, i + 1, rt)
      ensures Ran(rows, filled, i, |ps[i].hooks|, m, specs, nodes, ps, f, err)
    {
      hide Check, Appended, NodeRow, SpecNode;
      OutcomeOf(rows, filled + [Some(NewSpec(f.passed, j))], i + 1, specs, nodes, ps, err);
      FreshNodeRow(f.passed);
      var h := |ps[i].hooks|;
      var rest := SubmittedFrom(ps, i + 1);
      assert Stop(ps, i, h, f, rt) == StopFrom(ps, i + 1, rt);
      assert ps[i].hooks[h..] == [];
      assert Batch(ps, i, h, f) == [f.passed] + rest;
      assert filled + [Some(NewSpec(f.passed, j))] + NewSpecs(rest, j) == filled + NewSpecs([f.passed] + rest, j);
    }

    /** The insert has run and did or did not confirm builder i. */
    lemma OutcomeOf(rows: seq<Stored>, filled: seq<Option<Spec>>, lo: nat,
                    specs: array<Option<Spec>>, nodes: array<Account?>, ps: seq<Plan>, err: Option<SaveError>)
      requires |ps| == |builders| == specs.Length == nodes.Length && lo <= |ps| && |filled| == lo
      requires RanFrom(rows, filled, lo, specs, nodes, ps, err)
      ensures err.None? ==> Written(StopFrom(ps, lo, rt), err)
      ensures Written(StopFrom(ps, lo, rt), err) ==>
                (RejectionFrom(ps, lo).None? <==> err.None?) && forall k :: 0 <= k < |specs[..]| ==> specs[k].Some?
    {
      hide Check, AllSaved, NoneSaved, Stop, Rejection, Submitted;
    }

    /** What builder i does once its own spec is ready: hand over to builder i + 1, or insert. */
    method Next(i: nat, specs: array<Option<Spec>>, nodes: array<Account?>, ghost ps: seq<Plan>)
      returns (err: Option<SaveError>, ghost log: seq<Event>)
      requires specs.Length == nodes.Length == |builders| && i < |builders|
      requires Pending(i + 1, ps) && forall k :: 0 <= k <= i ==> specs[k].Some?
      modifies store`rows, specs, nodes, Builders(i + 1)`mutation, Mutations(i + 1)
      ensures RanFrom(old(store.rows), old(specs[..i + 1]), i + 1, specs, nodes, ps, err)
      ensures log == if i + 1 < |ps| then Log(ps, i + 1, 0, Start(ps[i + 1].draft), rt) else [Inserted]
      ensures err.None? ==> Written(StopFrom(ps, i + 1, rt), err)
      ensures forall k :: 0 <= k <= i ==> nodes[k] == old(nodes[k])
      ensures Written(StopFrom(ps, i + 1, rt), err) ==> forall k :: i < k < nodes.Length ==> fresh(nodes[k])
      ensures forall b :: b in Builders(i + 1) ==> b.mutation in old(Mutations(i + 1)) || fresh(b.mutation)
      decreases |builders| - i, 0, 0
    {
      hide Check, AllSaved, NoneSaved, Appended, Ran, RanFrom, Run, Batch, Stop, Rejection, Path, Log, Ends;
      ghost var filled := specs[..i + 1];
      if i + 1 < |builders| {
        ReadyNext(i, specs, nodes, ps);
        var next := builders[i + 1].mutation;
        err, log := Mutate(i + 1, 0, next, specs, nodes, ps, Start(ps[i + 1].draft));
        RanNext(old(store.rows), filled, i + 1, next, specs, nodes, ps, err);
      } else {
        assert filled == specs[..];
        err := store.BatchCreate(specs);
        log := [Inserted];
        InsertRan(old(store.rows), filled, specs, nodes, ps, err);
      }
      OutcomeOf(old(store.rows), filled, i + 1, specs, nodes, ps, err);
    }

    /** Builder i takes over the mutation it was handed and puts its node and spec in place i. */
    method Prepare(i: nat, m: Mutation, specs: array<Option<Spec>>, nodes: array<Account?>, ghost ps: seq<Plan>, ghost f: Flow)
      returns (node: Account)
      requires i < |builders| && Ready(i, |builders[i].hooks|, m, specs, nodes, ps, f)
      modifies specs, nodes, {builders[i]}`mutation
      ensures builders[i].mutation == m && fresh(node) && node.row == SpecNode(f.passed) && nodes[i] == node
      ensures specs[..i + 1] == old(specs[..i]) + [Some(NewSpec(f.passed, j))]
      ensures forall k :: 0 <= k <= i ==> specs[k].Some?
      ensures forall k :: 0 <= k < i ==> nodes[k] == old(nodes[k])
      ensures Pending(i + 1, ps) && Mutations(i + 1) == old(Mutations(i + 1)) && m !in Mutations(i + 1)
    {
      hide SpecNode, SpecCells, NewSpec;
      var builder := builders[i];
      builder.mutation := m;
      var spec: Spec;
      node, spec := builder.CreateSpec(j);
      nodes[i], specs[i] := node, Some(spec);
    }

    /** The innermost mutator of builder i: check, build spec i, go on, and fill in the result. */
    method Core(i: nat, m: Mutation, specs: array<Option<Spec>>, nodes: array<Account?>, ghost ps: seq<Plan>, ghost f: Flow)
      returns (err: Option<SaveError>, ghost log: seq<Event>)
      requires i < |builders| && Ready(i, |builders[i].hooks|, m, specs, nodes, ps, f)
      modifies store`rows, specs, nodes, m, Builders(i)`mutation, Mutations(i + 1)
      ensures var h := |builders[i].hooks|;
              && log == Log(ps, i, h, f, rt)
              && Ran(old(store.rows), old(specs[..i]), i, h, m, specs, nodes, ps, f, err)
              && (forall k :: 0 <= k < i ==> nodes[k] == old(nodes[k]))
              && (Written(Stop(ps, i, h, f, rt), err) ==> forall k :: i <= k < nodes.Length ==> fresh(nodes[k]))
      ensures builders[i].mutation in {old(builders[i].mutation), m}
      ensures forall b :: b in Builders(i + 1) ==> b.mutation in old(Mutations(i + 1)) || fresh(b.mutation)
      decreases |builders| - i, 0, 1
    {
      hide Check, Pending, Distinct, AllSaved, NoneSaved, Appended, Ran, RanFrom, Run, Batch, Stop, StopFrom,
           Rejection, RejectionFrom, Path, Log, Ends, SpecNode, SpecCells, NodeRow, NewSpec;
      NothingSavedYet(i, |builders[i].hooks|, m, specs, nodes, ps, f);
      LogAtCore(ps, i, f, rt);
      var builder := builders[i];
      var verdict := Check(builder.mutation.draft, rt);
      if verdict != Passed {
        err, log := Some(Invalid(i, verdict)), [];
        CheckFails(store.rows, specs[..i], i, m, specs, nodes, ps, f);
      } else {
        var node := Prepare(i, m, specs, nodes, ps, f);
        err, log := Next(i, specs, nodes, ps);
        log := [Checked(i)] + log;
        Confirm(i, m, node, specs, nodes, ps, f, err, old(store.rows), old(specs[..i]));
      }
    }

    /** Unless an error comes back, builder i fills in its node and marks its mutation done. */
    method Confirm(i: nat, m: Mutation, node: Account, specs: array<Option<Spec>>, nodes: array<Account?>,
                   ghost ps: seq<Plan>, ghost f: Flow, err: Option<SaveError>,
                   ghost rows: seq<Stored>, ghost filled: seq<Option<Spec>>)
      requires |ps| == |builders| == specs.Length == nodes.Length && i < |ps| && |filled| == i
      requires RanFrom(rows, filled + [Some(NewSpec(f.passed, j))], i + 1, specs, nodes, ps, err)
      requires Check(f.own, rt) == Passed
      requires builders[i].mutation == m && m !in Mutations(i + 1) && Untouched(m) && m.draft == f.passed
      requires nodes[i] == node && node.row == SpecNode(f.passed)
      requires err.None? ==> forall k :: i < k < nodes.Length ==> nodes[k] != node
      modifies m`id, m`done, node`row
      ensures Stop(ps, i, |ps[i].hooks|, f, rt) == StopFrom(ps, i + 1, rt)
      ensures Ran(rows, filled, i, |ps[i].hooks|, m, specs, nodes, ps, f, err)
    {
      hide Check, AllSaved, NoneSaved, Appended, Ran, RanFrom, Run, Batch, Stop, StopFrom, Rejection, RejectionFrom, Ends,
           SpecNode, NewSpec;
      OutcomeOf(rows, filled + [Some(NewSpec(f.passed, j))], i + 1, specs, nodes, ps, err);
      FreshNodeRow(f.passed);
      if err.None? {
        m.id := node;
        if specs[i].value.id.Some? {
          node.row := node.row.(id := specs[i].value.id.value);
        }
        m.done := true;
      }
      CoreLeft(rows, filled, i, m, node, specs, nodes, ps, f, err);
    }

    /** What the fields of all builders hold. */
    ghost function Drafts(): (ds: seq<Draft>)
      reads Builders(0), Mutations(0)
      ensures |ds| == |builders|
    {
      seq(|builders|, k requires 0 <= k < |builders| reads Builders(0), Mutations(0) => builders[k].mutation.draft)
    }

    /** The builders after defaults has run on each. */
    ghost function Defaulting(ds: seq<Draft>): (ps: seq<Plan>)
      requires |ds| == |builders|
      ensures |ps| == |builders|
    {
      seq(|builders|, k requires 0 <= k < |builders| => Plan(builders[k].hooks, Defaulted(ds[k], rt)))
    }

    lemma ReadyFirst(specs: array<Option<Spec>>, nodes: array<Account?>, ps: seq<Plan>)
      requires specs.Length == nodes.Length == |builders| && 0 < |builders| && Pending(0, ps)
      ensures Ready(0, 0, builders[0].mutation, specs, nodes, ps, Start(ps[0].draft))
    {
    }

    lemma NoBuilders(rows: seq<Stored>, specs: array<Option<Spec>>, nodes: array<Account?>, ps: seq<Plan>)
      requires |ps| == |builders| == specs.Length == nodes.Length == 0 && store.rows == rows
      ensures RanFrom(rows, [], 0, specs, nodes, ps, None)
    {
      assert Appended(rows, store.rows, [], specs[..]);
      InsertRan(rows, [], specs, nodes, ps, None);
    }

    /** The state in which Save leaves its builders and the table. */
    ghost predicate Outcome(rows: seq<Stored>, ps: seq<Plan>, err: Option<SaveError>)
      requires |ps| == |builders|
      reads store`rows, Builders(0)`mutation, Mutations(0), (set m | m in Mutations(0) :: m.id)`row
    {
      if Written(StopFrom(ps, 0, rt), err) then
        && |store.rows| == |rows| + |ps| && store.rows[..|rows|] == rows
        && forall k :: 0 <= k < |ps| ==>
             SavedAs(builders[k], SubmittedFrom(ps, 0)[k], store.rows[|rows| + k], RejectionFrom(ps, k + 1).None?, j)
      else store.rows == rows && NoneSaved(0)
    }

    lemma RowsAppended(rows: seq<Stored>, specs: array<Option<Spec>>, nodes: array<Account?>, ps: seq<Plan>, err: Option<SaveError>)
      requires |ps| == |builders| == specs.Length == nodes.Length
      requires RanFrom(rows, [], 0, specs, nodes, ps, err) && Written(StopFrom(ps, 0, rt), err)
      ensures Appended(rows, store.rows, NewSpecs(SubmittedFrom(ps, 0), j), specs[..])
      ensures |store.rows| == |rows| + |ps| && store.rows[..|rows|] == rows
    {
      hide Check, StopFrom, RejectionFrom, SubmittedFrom, AllSaved, Appended, NewSpecs;
      var ds := SubmittedFrom(ps, 0);
      assert [] + NewSpecs(ds, j) == NewSpecs(ds, j);
      BatchRows(rows, store.rows, ds, specs[..], j);
    }

    lemma SavedAt(rows: seq<Stored>, specs: array<Option<Spec>>, nodes: array<Account?>, ps: seq<Plan>, err: Option<SaveError>, k: nat)
      requires |ps| == |builders| == specs.Length == nodes.Length && k < |ps|
      requires RanFrom(rows, [], 0, specs, nodes, ps, err) && Written(StopFrom(ps, 0, rt), err)
      requires |store.rows| == |rows| + |ps|
      ensures SavedAs(builders[k], SubmittedFrom(ps, 0)[k], store.rows[|rows| + k], RejectionFrom(ps, k + 1).None?, j)
      ensures err.None? ==> builders[k].mutation.done && builders[k].mutation.id == nodes[k]
    {
      hide Check, StopFrom, RejectionFrom, SubmittedFrom, Appended, NewSpecs, Saved, SavedAs, SpecCells, NodeRow;
      var ds := SubmittedFrom(ps, 0);
      var confirmed := RejectionFrom(ps, k + 1).None?;
      RowsAppended(rows, specs, nodes, ps, err);
      BatchRow(rows, store.rows, ds, specs[..], k, j);
      SavedRow(builders[k], ds[k], specs[k].value, nodes[k], store.rows[|rows| + k], confirmed, j);
      if err.None? {
        LaterRejection(ps, 0, k + 1);
        ConfirmedNode(builders[k], ds[k], specs[k], nodes[k]);
      }
    }

    lemma SaveEnds(rows: seq<Stored>, specs: array<Option<Spec>>, nodes: array<Account?>, ps: seq<Plan>, err: Option<SaveError>)
      requires |ps| == |builders| == specs.Length == nodes.Length
      requires RanFrom(rows, [], 0, specs, nodes, ps, err)
      ensures Ends(StopFrom(ps, 0, rt), RejectionFrom(ps, 0), err)
      ensures Outcome(rows, ps, err)
      ensures err.None? ==> AllDone(nodes[..])
    {
      hide Check, StopFrom, RejectionFrom, SubmittedFrom, AllSaved, Appended, NewSpecs, SavedAs, NoneSaved;
      if Written(StopFrom(ps, 0, rt), err) {
        RowsAppended(rows, specs, nodes, ps, err);
        forall k | 0 <= k < |ps|
          ensures SavedAs(builders[k], SubmittedFrom(ps, 0)[k], store.rows[|rows| + k], RejectionFrom(ps, k + 1).None?, j)
          ensures err.None? ==> builders[k].mutation.done && builders[k].mutation.id == nodes[k]
        {
          SavedAt(rows, specs, nodes, ps, err, k);
        }
      }
    }

    /** The first loop of Save. */
    method FillDefaults()
      requires Distinct(0) && NoneSaved(0)
      modifies Mutations(0)`draft
      ensures Pending(0, Defaulting(old(Drafts()))) && Mutations(0) == old(Mutations(0))
    {
      hide Defaulted;
      for k := 0 to |builders|
        invariant forall x :: 0 <= x < k ==> builders[x].mutation.draft == Defaulted(old(builders[x].mutation.draft), rt)
        invariant forall x :: k <= x < |builders| ==> builders[x].mutation.draft == old(builders[x].mutation.draft)
      {
        var _ := builders[k].mutation.Defaults(rt);
      }
    }

    /** Save: defaults for every builder, then the chain of mutators from the first one. */
    method Save() returns (result: Result<seq<Account?>, SaveError>, ghost log: seq<Event>)
      requires Distinct(0) && NoneSaved(0)
      modifies store`rows, Builders(0)`mutation, Mutations(0)
      ensures err.Some? ==> result == Failure(err.value) && log == [] && store.rows == old(store.rows)
                            && NoneSaved(0) && Drafts() == old(Drafts())
      ensures err.None? ==>
                var ps := Defaulting(old(Drafts()));
                var error := if result.Failure? then Some(result.error) else None;
                && Ends(StopFrom(ps, 0, rt), RejectionFrom(ps, 0), error)
                && Outcome(old(store.rows), ps, error)
                && log == (if |ps| == 0 then [] else Log(ps, 0, 0, Start(ps[0].draft), rt))
      ensures result.Success? ==> |result.value| == |builders| && AllDone(result.value)
    {
      hide *;
      if err.Some? {
        result, log := Failure(err.value), [];
      } else {
        FillDefaults();
        result, log := RunChain(Defaulting(old(Drafts())));
      }
    }

    /** Save after the defaults: the arrays the mutators fill, and the call of the first one. */
    method RunChain(ghost ps: seq<Plan>) returns (result: Result<seq<Account?>, SaveError>, ghost log: seq<Event>)
      requires Pending(0, ps)
      modifies store`rows, Builders(0)`mutation, Mutations(0)
      ensures var error := if result.Failure? then Some(result.error) else None;
              && Ends(StopFrom(ps, 0, rt), RejectionFrom(ps, 0), error)
              && Outcome(old(store.rows), ps, error)
      ensures log == (if |ps| == 0 then [] else Log(ps, 0, 0, Start(ps[0].draft), rt))
      ensures result.Success? ==> |result.value| == |builders| && AllDone(result.value)
    {
      hide Check, Pending, Distinct, NoneSaved, Untouched, RanFrom, StopFrom, RejectionFrom, Log, Ends, Outcome, Ready, Start,
           AllDone;
      PlansLength(ps);
      var specs := new Option<Spec>[|builders|](_ => None);
      var nodes := new Account?[|builders|](_ => null);
      var error: Option<SaveError>;
      if |builders| > 0 {
        ReadyFirst(specs, nodes, ps);
        error, log := MutateFirst(specs, nodes, ps);
      } else {
        error, log := None, [];
        NoBuilders(store.rows, specs, nodes, ps);
      }
      SaveEnds(old(store.rows), specs, nodes, ps, error);
      result := if error.Some? then Failure(error.value) else Success(nodes[..]);
    }

    lemma PlansLength(ps: seq<Plan>)
      requires Pending(0, ps)
      ensures |ps| == |builders|
    {
    }

    ghost predicate AllDone(nodes: seq<Account?>)
      requires |nodes| == |builders|
      reads Builders(0)`mutation, Mutations(0)
    {
      forall k :: 0 <= k < |builders| ==> builders[k].mutation.done && builders[k].mutation.id == nodes[k]
    }

    /** Save's one call into the chain. */
    method MutateFirst(specs: array<Option<Spec>>, nodes: array<Account?>, ghost ps: seq<Plan>)
      returns (err: Option<SaveError>, ghost log: seq<Event>)
      requires |builders| > 0 && |ps| == |builders|
      requires Ready(0, 0, builders[0].mutation, specs, nodes, ps, Start(ps[0].draft))
      modifies store`rows, specs, nodes, Builders(0)`mutation, Mutations(0)
      ensures RanFrom(old(store.rows), [], 0, specs, nodes, ps, err)
      ensures log == Log(ps, 0, 0, Start(ps[0].draft), rt)
    {
      hide Check, Pending, AllSaved, NoneSaved, Appended, Ran, RanFrom, Run, Batch, Stop, Rejection, Path, Log, Ends;
      var first := builders[0].mutation;
      assert specs[..0] == [];
      err, log := Mutate(0, 0, first, specs, nodes, ps, Start(ps[0].draft));
      RanNext(old(store.rows), [], 0, first, specs, nodes, ps, err);
    }
  }
}
