/** The promises of eager loading, for callers of AccountQuery.All, and where they end. */
module EagerLoading {
  import opened Wrappers
  import opened AccountSchema
  import opened AccountCodec
  import opened Relational
  import opened JoinSpec
  import opened JoinBatches
  import opened JoinGroups
  import opened JoinAnswers
  import opened JoinOrders
  import opened JoinTheorems
  import opened AccountGraph
  import opened Loaders
  import opened EdgeLoading
  import opened StoredRows
  import opened QueryBuilder

  /** The graph below node i is the one that a query per node and edge would give. */
  ghost predicate NestedLoopAt(v: View, t: QTree, i: nat, db: Tables)
    requires i < |RootRows(t, db)|
  {
    v == NodeView(t.edges, ColumnsOf(t), RootRows(t, db)[i], db)
  }

  /** For every query tree and every lawful database, a successful All returns one node per root
      row; every node of its graph reports, edge by edge, what its query requested; the graph
      is the nested-loop graph if and only if every edge is faithful, and without nested limits
      and offsets it always is, up to the order of groups. */
  method LoadGraph(q: AccountQuery, db: Tables, j: Json) returns (r: Result<seq<Account>, QueryError>, ghost within: set<Account>)
    requires q.Valid() && Ready(q.Tree(), db, j)
    modifies q.Repr
    ensures q.Valid() && fresh(q.Repr - old(q.Repr)) && fresh(within)
    ensures r.Failure? ==> Blames(r.error, old(q.Tree()))
    ensures r.Success? ==> Closed(within) && |r.value| == |RootRows(old(q.Tree()), db)|
    ensures r.Success? ==> HoldRows(r.value, old(q.Tree()), within, db)
    ensures r.Success? ==> forall i :: 0 <= i < |r.value| ==> r.value[i] in within && Reports(r.value[i], old(q.Tree()).edges, within)
    ensures r.Success? && WindowsSettled(old(q.Tree()).edges, db) ==>
              ((forall i :: 0 <= i < |r.value| ==> NestedLoopAt(r.value[i].view, old(q.Tree()), i, db)) <==>
               Faithful(old(q.Tree()).edges, RootRows(old(q.Tree()), db), db))
    ensures r.Success? && NoNestedWindow(old(q.Tree()).edges) ==>
              forall i :: 0 <= i < |r.value| ==>
                && Alike(r.value[i].view, NodeView(old(q.Tree()).edges, ColumnsOf(old(q.Tree())), RootRows(old(q.Tree()), db)[i], db))
                && (GroupsSettled(old(q.Tree()).edges, RootRows(old(q.Tree()), db), db) ==> NestedLoopAt(r.value[i].view, old(q.Tree()), i, db))
    ensures r.Success? ==> q.Tree() == AfterRun(old(q.Tree()), db)
  {
    hide *;
    ghost var t := q.Tree();
    r, within := q.All(db, j);
    if r.Success? {
      DeliveredCount(t, r.value, within, db);
      DeliveredReports(t, r.value, within, db);
      if WindowsSettled(t.edges, db) {
        DeliveredExactly(t, r.value, within, db, j);
      }
      if NoNestedWindow(t.edges) {
        DeliveredAlike(t, r.value, within, db, j);
      }
    }
  }

  lemma DeliveredCount(t: QTree, nodes: seq<Account>, within: set<Account>, db: Tables)
    requires Delivered(nodes, Load(t, db), within)
    ensures Closed(within) && |nodes| == |RootRows(t, db)|
    ensures forall i :: 0 <= i < |nodes| ==> nodes[i] in within
  {
  }

  /** Every node of a successful run, at every depth and whatever the windows, reports what its
      query requested. */
  lemma DeliveredReports(t: QTree, nodes: seq<Account>, within: set<Account>, db: Tables)
    requires Delivered(nodes, Load(t, db), within)
    ensures forall i :: 0 <= i < |nodes| ==> Reports(nodes[i], t.edges, within)
  {
    hide BatchViews, Reports, Shaped, RootRows, ColumnsOf;
    forall i | 0 <= i < |nodes| ensures Reports(nodes[i], t.edges, within) {
      BatchShaped(t.edges, ColumnsOf(t), RootRows(t, db), i, db);
      ShapedReports(nodes[i], t.edges, within);
    }
  }

  lemma DeliveredExactly(t: QTree, nodes: seq<Account>, within: set<Account>, db: Tables, j: Json)
    requires Ready(t, db, j) && WindowsSettled(t.edges, db) && Delivered(nodes, Load(t, db), within)
    ensures |nodes| == |RootRows(t, db)|
    ensures (forall i :: 0 <= i < |nodes| ==> NestedLoopAt(nodes[i].view, t, i, db)) <==> Faithful(t.edges, RootRows(t, db), db)
  {
    hide BatchViews, NodeView, RootRows, ColumnsOf, Faithful, WindowsSettled, Lawful;
    NestedLoopExactly(t.edges, ColumnsOf(t), RootRows(t, db), db);
    var rows := RootRows(t, db);
    var views, wanted := BatchViews(t.edges, ColumnsOf(t), rows, db), NodeViews(t.edges, ColumnsOf(t), rows, db);
    if forall i :: 0 <= i < |nodes| ==> NestedLoopAt(nodes[i].view, t, i, db) {
      forall i | 0 <= i < |rows| ensures views[i] == wanted[i] {
        assert NestedLoopAt(nodes[i].view, t, i, db);
      }
    }
  }

  lemma DeliveredAlike(t: QTree, nodes: seq<Account>, within: set<Account>, db: Tables, j: Json)
    requires Ready(t, db, j) && NoNestedWindow(t.edges) && Delivered(nodes, Load(t, db), within)
    ensures |nodes| == |RootRows(t, db)|
    ensures forall i :: 0 <= i < |nodes| ==>
              && Alike(nodes[i].view, NodeView(t.edges, ColumnsOf(t), RootRows(t, db)[i], db))
              && (GroupsSettled(t.edges, RootRows(t, db), db) ==> NestedLoopAt(nodes[i].view, t, i, db))
  {
    hide BatchViews, NodeView, RootRows, ColumnsOf, NoNestedWindow, GroupsSettled, Lawful, Alike;
    BatchAlike(t.edges, ColumnsOf(t), RootRows(t, db), db);
    if GroupsSettled(t.edges, RootRows(t, db), db) {
      BatchRefinesNestedLoop(t.edges, ColumnsOf(t), RootRows(t, db), db);
    }
  }

  /** The graph that a query per node and edge would give. */
  ghost predicate NestedLoopGraph(t: QTree, db: Tables)
  {
    Load(t, db) == NodeViews(t.edges, ColumnsOf(t), RootRows(t, db), db)
  }

  /** Without nested limits and offsets, eager loading is the nested loop behind every lawful
      database with these tables if and only if the order terms settle the order of groups. */
  lemma LoadSettledExactly(t: QTree, db: Tables)
    requires Keyed(db) && NoNestedWindow(t.edges)
    ensures (forall answers :: Lawful(Answering(db, answers)) ==> NestedLoopGraph(t, Answering(db, answers)))
            <==> OrdersSettled(t.edges, RootRows(t, db), db)
  {
    hide Keyed, Lawful, OrdersSettled, NoNestedWindow, ColumnsOf, Select, BatchViews, NodeView;
    forall answers | Lawful(Answering(db, answers))
      ensures NestedLoopGraph(t, Answering(db, answers)) <==>
              SameGraph(t.edges, ColumnsOf(t), RootRows(t, db), Answering(db, answers))
    {
      assert RootRows(t, Answering(db, answers)) == RootRows(t, db);
    }
    GraphSettledExactly(t.edges, ColumnsOf(t), RootRows(t, db), db);
  }

  /** Running one query object up to n times over an unchanged database: every successful
      run delivers the graph of the first, although each run narrows the nested queries. */
  method LoadRepeatedly(q: AccountQuery, db: Tables, j: Json, n: nat) returns (runs: seq<seq<Account>>, ghost withins: seq<set<Account>>)
    requires q.Valid() && Ready(q.Tree(), db, j) && NoGroups(q.Tree().edges)
    modifies q.Repr
    ensures q.Valid() && fresh(q.Repr - old(q.Repr)) && |withins| == |runs| <= n
    ensures forall k :: 0 <= k < |runs| ==> Delivered(runs[k], Load(old(q.Tree()), db), withins[k])
    ensures |runs| == n ==> q.Tree() == AfterRuns(old(q.Tree()), n, db)
  {
    hide *;
    ghost var t := q.Tree();
    runs, withins := [], [];
    NoRuns(t, db);
    while |runs| < n
      invariant q.Valid() && fresh(q.Repr - old(q.Repr)) && |withins| == |runs| <= n
      invariant forall k :: 0 <= k < |runs| ==> fresh(withins[k]) && forall a :: a in withins[k] ==> a !in q.Repr
      invariant forall k :: 0 <= k < |runs| ==> Delivered(runs[k], Load(t, db), withins[k])
      invariant q.Tree() == AfterRuns(t, |runs|, db)
      decreases n - |runs|
    {
      RunsStayReady(t, |runs|, db, j);
      RunsLoadSame(t, |runs|, db);
      var r, within := q.All(db, j);
      if r.Failure? {
        return;
      }
      runs, withins := runs + [r.value], withins + [within];
    }
  }

  lemma NoRuns(t: QTree, db: Tables)
    ensures AfterRuns(t, 0, db) == t
  {
  }

  /** The query tree after k successful runs. */
  function AfterRuns(t: QTree, k: nat, db: Tables): QTree
  {
    t.(edges := Runs(t.edges, k, RootRows(t, db), db))
  }

  lemma {:induction false} RunsKeepNoGroups(e: Edges, rows: seq<Row>, db: Tables)
    requires NoGroups(e)
    ensures NoGroups(After(e, rows, db)) && Unjoined(e)
    decreases e
  {
    if e.parent.Some? {
      RunsKeepNoGroups(e.parent.value.edges, ParentBatch(e, rows, db), db);
    }
    if e.children.Some? {
      RunsKeepNoGroups(e.children.value.edges, ChildBatch(e, rows, db), db);
    }
  }

  lemma {:induction false} RunsStayReady(t: QTree, k: nat, db: Tables, j: Json)
    requires Ready(t, db, j) && NoGroups(t.edges)
    ensures NoGroups(AfterRuns(t, k, db).edges) && Ready(AfterRuns(t, k, db), db, j)
  {
    if k > 0 {
      RunsStayReady(t, k - 1, db, j);
      RunsKeepNoGroups(Runs(t.edges, k - 1, RootRows(t, db), db), RootRows(t, db), db);
    }
    RunsKeepNoGroups(Runs(t.edges, k, RootRows(t, db), db), RootRows(t, db), db);
  }

  lemma RunsLoadSame(t: QTree, k: nat, db: Tables)
    requires NoGroups(t.edges)
    ensures Load(AfterRuns(t, k, db), db) == Load(t, db)
    ensures AfterRun(AfterRuns(t, k, db), db) == AfterRuns(t, k + 1, db)
  {
    RerunSameGraph(t.edges, k, ColumnsOf(t), RootRows(t, db), db);
  }

  // ----- where the promises end

  const PLAIN: Own<Row> := Own([], [], 0, 0)

  /** The accounts without a parent, each with at most one child: or so it reads. */
  const ROOTS_WITH_CHILD := QTree(
    Own([Custom((r: Row) => r.parentAccountID == None)], [], 0, 0), [],
    Edges(None, None, None, Some(QTree(PLAIN.(limit := 1), [], Edges(None, None, None, None), []))), [])

  function Accounts4(a: Row, b: Row, ca: Row, cb: Row): Tables
  {
    Tables([a, b, ca, cb], [], [], [], (own, ids) => [])
  }

  /** A limit on a nested query caps the whole batch, not each node: of two roots that have one
      child each, the second is loaded without its child under a nested limit of one. */
  lemma NestedLimitIsPerBatch(a: Row, b: Row, ca: Row, cb: Row)
    requires ca.parentAccountID == Some(a.id) && cb.parentAccountID == Some(b.id)
    requires a.parentAccountID == None && b.parentAccountID == None
    requires AllDistinct(a.id, b.id, ca.id, cb.id)
    ensures var db := Accounts4(a, b, ca, cb);
            && Lawful(db)
            && RootRows(ROOTS_WITH_CHILD, db) == [a, b]
            && Load(ROOTS_WITH_CHILD, db)[1].children == []
            && |NodeView(ROOTS_WITH_CHILD.edges, ColumnsOf(ROOTS_WITH_CHILD), b, db).children| == 1
            && !Faithful(ROOTS_WITH_CHILD.edges, [a, b], db)
  {
    var db, t := Accounts4(a, b, ca, cb), ROOTS_WITH_CHILD;
    Lawful4(a, b, ca, cb);
    RootsOf4(a, b, ca, cb);
    ChildrenOf4(a, b, ca, cb);
    NoGroupWindows(db);
    hide *;
    NestedLoopExactly(t.edges, ColumnsOf(t), [a, b], db);
    LoadedOf4(a, b, ca, cb);
  }

  lemma NoGroupWindows(db: Tables)
    ensures WindowsSettled(ROOTS_WITH_CHILD.edges, db)
  {
  }

  lemma LoadedOf4(a: Row, b: Row, ca: Row, cb: Row)
    requires var db := Accounts4(a, b, ca, cb);
             && RootRows(ROOTS_WITH_CHILD, db) == [a, b]
             && ChildBatch(ROOTS_WITH_CHILD.edges, [a, b], db) == [ca]
             && SelectChildren(PLAIN.(limit := 1), [b.id], db) == [cb]
    requires ca.parentAccountID == Some(a.id) && a.id != b.id
    ensures var db, t := Accounts4(a, b, ca, cb), ROOTS_WITH_CHILD;
            && Load(t, db)[1].children == []
            && |NodeView(t.edges, ColumnsOf(t), b, db).children| == 1
            && BatchViews(t.edges, ColumnsOf(t), [a, b], db) != NodeViews(t.edges, ColumnsOf(t), [a, b], db)
  {
    var db, t := Accounts4(a, b, ca, cb), ROOTS_WITH_CHILD;
    hide Select, Pick, RootRows, ChildBatch;
    PickNothing(ChildViews(t.edges, [a, b], db), Keys(PARENT_KEY, [ca]), b.id);
    assert BatchViews(t.edges, ColumnsOf(t), [a, b], db)[1].children == [];
    assert NodeViews(t.edges, ColumnsOf(t), [a, b], db)[1] == NodeView(t.edges, ColumnsOf(t), b, db);
  }

  lemma Lawful4(a: Row, b: Row, ca: Row, cb: Row)
    requires AllDistinct(a.id, b.id, ca.id, cb.id)
    ensures Lawful(Accounts4(a, b, ca, cb))
  {
    var db := Accounts4(a, b, ca, cb);
    forall own: Own<GroupRow>, ids: seq<int> ensures Arranged(own, ids, db, db.joined(own, ids)) {
      assert SelectedJoins(own, ids, db) == [];
    }
  }

  predicate AllDistinct(a: int, b: int, c: int, d: int)
  {
    a != b && a != c && a != d && b != c && b != d && c != d
  }

  lemma RootsOf4(a: Row, b: Row, ca: Row, cb: Row)
    requires ca.parentAccountID.Some? && cb.parentAccountID.Some? && a.parentAccountID == None && b.parentAccountID == None
    ensures RootRows(ROOTS_WITH_CHILD, Accounts4(a, b, ca, cb)) == [a, b]
  {
    var ps := ROOTS_WITH_CHILD.own.preds;
    forall r: Row ensures HoldsAll(ps, r) <==> r.parentAccountID == None {
      assert HoldsAll(ps, r) <==> Holds(ps[0], r);
    }
    assert [cb][1..] == [] && Filter(ps, [cb]) == [];
    assert [ca, cb][1..] == [cb] && Filter(ps, [ca, cb]) == [];
    assert [b, ca, cb][1..] == [ca, cb] && Filter(ps, [b, ca, cb]) == [b];
    assert [a, b, ca, cb][1..] == [b, ca, cb] && Filter(ps, [a, b, ca, cb]) == [a, b];
    ArrangeUnordered([a, b]);
    assert [a, b][0..] == [a, b];
  }

  lemma ChildrenOf4(a: Row, b: Row, ca: Row, cb: Row)
    requires ca.parentAccountID == Some(a.id) && cb.parentAccountID == Some(b.id) && a.id != b.id
    requires a.parentAccountID == None && b.parentAccountID == None
    ensures ChildBatch(ROOTS_WITH_CHILD.edges, [a, b], Accounts4(a, b, ca, cb)) == [ca]
    ensures SelectChildren(PLAIN.(limit := 1), [b.id], Accounts4(a, b, ca, cb)) == [cb]
  {
    BothChildren(a, b, ca, cb, [a.id, b.id]);
    BothChildren(a, b, ca, cb, [b.id]);
    assert IDs([a, b]) == [a.id, b.id];
    hide Arrange, Filter;
    assert [ca, cb][0..][..1] == [ca] && [cb][0..] == [cb];
  }

  lemma BothChildren(a: Row, b: Row, ca: Row, cb: Row, ids: seq<int>)
    requires ca.parentAccountID == Some(a.id) && cb.parentAccountID == Some(b.id)
    requires a.parentAccountID == None && b.parentAccountID == None
    ensures Arrange(PLAIN.order, Filter(PLAIN.And(KeyIn(PARENT_KEY, ids)).preds, [a, b, ca, cb])) ==
            (if a.id in ids then [ca] else []) + (if b.id in ids then [cb] else [])
  {
    var ps := PLAIN.And(KeyIn(PARENT_KEY, ids)).preds;
    forall r: Row ensures HoldsAll(ps, r) <==> r.parentAccountID.Some? && r.parentAccountID.value in ids {
      assert ps[0] == KeyIn(PARENT_KEY, ids) && |ps| == 1;
      assert HoldsAll(ps, r) <==> Holds(ps[0], r);
    }
    var second := if b.id in ids then [cb] else [];
    var first := if a.id in ids then [ca] else [];
    assert [cb][1..] == [] && Filter(ps, [cb]) == second;
    assert [ca, cb][1..] == [cb] && Filter(ps, [ca, cb]) == first + second;
    assert [b, ca, cb][1..] == [ca, cb] && Filter(ps, [b, ca, cb]) == [] + (first + second);
    assert [a, b, ca, cb][1..] == [b, ca, cb] && Filter(ps, [a, b, ca, cb]) == [] + (first + second);
    ArrangeUnordered(first + second);
    assert [] + (first + second) == first + second;
  }

  lemma {:induction false} ArrangeUnordered(rows: seq<Row>)
    ensures Arrange(PLAIN.order, rows) == rows
  {
    if rows != [] {
      ArrangeUnordered(rows[1..]);
    }
  }

  /** Two node objects with one ID: only the later one receives the children and groups. */
  lemma RepeatedIDLosesEdges(nodes: seq<Account>, ids: seq<int>, i: nat, k: nat)
    requires |ids| == |nodes| && i < |nodes| && k < |nodes| && ids[i] == ids[k]
    requires forall m :: k < m < |ids| ==> ids[m] != ids[k]
    ensures Owns(nodes, Wrapped(ids), i) <==> nodes[i] == nodes[k]
  {
    LatestIs(Wrapped(ids), Some(ids[k]), k);
  }

  lemma {:induction false} LatestIs(ks: seq<Option<int>>, k: Option<int>, p: nat)
    requires p < |ks| && ks[p] == k && forall m :: p < m < |ks| ==> ks[m] != k
    ensures Latest(ks, k) == Some(p)
  {
    if p < |ks| - 1 {
      LatestIs(ks[..|ks| - 1], k, p);
    }
  }

  const ALL_GROUPS := GroupPlan(Own([], [], 0, 0), 0)

  /** Account 1 is in g and h, account 2 in h. Asked for both accounts, the database happens to
      begin with account 2; asked for anything else it answers group by group. */
  ghost function TwoMembers(g: GroupRow, h: GroupRow): Tables
  {
    var ms := [(1, g.id), (1, h.id), (2, h.id)];
    Tables([], [], [g, h], ms, (own, ids) =>
      if own == ALL_GROUPS.own && ids == [1, 2] then [(2, h), (1, g), (1, h)]
      else JoinRows(Arrange(own.order, Filter(own.preds, [g, h])), ms, ids))
  }

  lemma MatchesLast(x: GroupRow, ms: seq<(int, int)>, m: (int, int), ids: seq<int>)
    ensures Matches(x, ms + [m], ids) == Matches(x, ms, ids) + if m.1 == x.id && m.0 in ids then [(m.0, x)] else []
  {
    assert (ms + [m])[..|ms|] == ms;
  }

  lemma ThreeMatches(x: GroupRow, g: GroupRow, h: GroupRow, ids: seq<int>)
    requires 1 in ids
    ensures Matches(x, [(1, g.id), (1, h.id), (2, h.id)], ids) ==
            (if g.id == x.id then [(1, x)] else []) + (if h.id == x.id then [(1, x)] else []) +
            (if h.id == x.id && 2 in ids then [(2, x)] else [])
  {
    var one := [(1, g.id)];
    MatchesLast(x, [], (1, g.id), ids);
    MatchesLast(x, one, (1, h.id), ids);
    MatchesLast(x, one + [(1, h.id)], (2, h.id), ids);
    assert [] + one == one && one + [(1, h.id)] + [(2, h.id)] == [(1, g.id), (1, h.id), (2, h.id)];
    assert Matches(x, [], ids) == [];
  }

  lemma TwoJoined(g: GroupRow, h: GroupRow, ms: seq<(int, int)>, ids: seq<int>)
    ensures JoinRows([g, h], ms, ids) == Matches(g, ms, ids) + Matches(h, ms, ids)
  {
    assert [g, h][..1] == [g] && [g][..0] == [];
    assert JoinRows([g], ms, ids) == Matches(g, ms, ids);
  }

  lemma TwoMembersRows(g: GroupRow, h: GroupRow)
    requires g.id != h.id
    ensures var db := TwoMembers(g, h);
            && JoinRows([g, h], db.memberships, [1, 2]) == [(1, g), (1, h), (2, h)]
            && JoinRows([g, h], db.memberships, [1]) == [(1, g), (1, h)]
  {
    hide Matches, JoinRows;
    var ms := TwoMembers(g, h).memberships;
    TwoJoined(g, h, ms, [1, 2]);
    TwoJoined(g, h, ms, [1]);
    ThreeMatches(g, g, h, [1, 2]);
    ThreeMatches(h, g, h, [1, 2]);
    ThreeMatches(g, g, h, [1]);
    ThreeMatches(h, g, h, [1]);
  }

  lemma AllKept(g: GroupRow, h: GroupRow)
    ensures Filter<GroupRow>([], [g, h]) == [g, h]
  {
    assert [g, h][1..] == [h] && [h][1..] == [];
    assert Filter<GroupRow>([], [h]) == [h];
  }

  lemma TwoMembersLawful(g: GroupRow, h: GroupRow)
    requires g.id != h.id
    ensures Lawful(TwoMembers(g, h))
  {
    hide Arranged, JoinRows;
    var db := TwoMembers(g, h);
    forall own: Own<GroupRow>, ids: seq<int> ensures Arranged(own, ids, db, db.joined(own, ids)) {
      if own == ALL_GROUPS.own && ids == [1, 2] {
        SwappedArranged(g, h);
      } else {
        GroupByGroupIsArranged(own, ids, db);
      }
    }
  }

  lemma SwappedArranged(g: GroupRow, h: GroupRow)
    requires g.id != h.id
    ensures Arranged(ALL_GROUPS.own, [1, 2], TwoMembers(g, h), [(2, h), (1, g), (1, h)])
  {
    hide JoinRows, Filter;
    TwoMembersRows(g, h);
    AllKept(g, h);
    assert multiset([(2, h), (1, g), (1, h)]) == multiset([(1, g), (1, h), (2, h)]);
  }

  lemma TwoMembersAnswers(g: GroupRow, h: GroupRow)
    requires g.id != h.id
    ensures var db := TwoMembers(g, h);
            && SelectJoin(ALL_GROUPS, [1, 2], db) == [(2, h), (1, g), (1, h)]
            && SelectJoin(ALL_GROUPS, [1], db) == [(1, g), (1, h)]
            && NestedGroups(ALL_GROUPS, 1, db) == GroupsOf(SelectJoin(ALL_GROUPS, [1], db), 1)
  {
    hide JoinRows, Filter, Arrange, GroupsOf;
    TwoMembersRows(g, h);
    AllKept(g, h);
    GroupsArranged([g, h]);
  }

  /** A legal answer can list an account's groups in another order than its own query would:
      account 1 gets h before g, because the batch met h first, through account 2. */
  lemma GroupOrderIsGlobal(g: GroupRow, h: GroupRow)
    requires g.id != h.id
    ensures var db := TwoMembers(g, h);
            && Lawful(db)
            && GroupsOf(SelectJoin(ALL_GROUPS, [1, 2], db), 1) == [h, g]
            && GroupsOf(SelectJoin(ALL_GROUPS, [1], db), 1) == NestedGroups(ALL_GROUPS, 1, db) == [g, h]
  {
    hide *;
    TwoMembersLawful(g, h);
    TwoMembersAnswers(g, h);
    MetThroughOther(g, h);
    MetAlone(g, h);
  }

  lemma {:induction false} GroupsArranged(gs: seq<GroupRow>)
    ensures Arrange([], gs) == gs
  {
    if gs != [] {
      GroupsArranged(gs[1..]);
    }
  }

  lemma MetAlone(g: GroupRow, h: GroupRow)
    requires g.id != h.id
    ensures GroupsOf([(1, g), (1, h)], 1) == [g, h]
  {
    var rows: seq<JoinRow> := [(1, g), (1, h)];
    assert rows[..1] == [(1, g)] && rows[..1][..0] == [];
    assert FirstAppearance([(1, g)]) == [g] by {
      assert !HasGroup([], g.id);
    }
    assert !HasGroup([g], h.id);
    assert FirstAppearance(rows) == [g, h];
    assert Joined(rows, 1, g.id) by {
      assert rows[0].0 == 1 && rows[0].1.id == g.id;
    }
    assert Joined(rows, 1, h.id) by {
      assert rows[1].0 == 1 && rows[1].1.id == h.id;
    }
    assert [g, h][..1] == [g] && [g][..0] == [];
    assert KeepJoined([g], rows, 1) == [g];
  }

  lemma MetThroughOther(g: GroupRow, h: GroupRow)
    requires g.id != h.id
    ensures GroupsOf([(2, h), (1, g), (1, h)], 1) == [h, g]
  {
    var rows: seq<JoinRow> := [(2, h), (1, g), (1, h)];
    assert rows[..2] == [(2, h), (1, g)] && rows[..2][..1] == [(2, h)];
    assert FirstAppearance([]) == [];
    assert FirstAppearance(rows[..2][..1]) == [h] by {
      assert !HasGroup([], h.id);
    }
    assert FirstAppearance(rows[..2]) == [h, g] by {
      assert !HasGroup([h], g.id);
    }
    assert HasGroup([h, g], h.id) by {
      assert [h, g][0].id == h.id;
    }
    assert FirstAppearance(rows) == [h, g];
    assert Joined(rows, 1, h.id) by {
      assert rows[2].0 == 1 && rows[2].1.id == h.id;
    }
    assert Joined(rows, 1, g.id) by {
      assert rows[1].0 == 1 && rows[1].1.id == g.id;
    }
    assert [h, g][..1] == [h] && [h][..0] == [];
    assert KeepJoined([h], rows, 1) == [h];
  }
}
