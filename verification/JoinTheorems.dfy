/** Eager loading is a join: the batch evaluation of a query tree against the per-node
    evaluation, and what a second run of the tree sees. */
module JoinTheorems {
  import opened Wrappers
  import opened AccountSchema
  import opened Relational
  import opened JoinSpec
  import opened JoinBatches
  import opened JoinGroups
  import opened JoinAnswers
  import opened JoinOrders

  // ----- shares of views

  lemma {:induction false} PickViews(e: Edges, cols: set<Column>, rows: seq<Row>, ks: seq<Option<int>>, id: int, db: Tables)
    requires |rows| == |ks|
    ensures Pick(NodeViews(e, cols, rows, db), ks, id) == NodeViews(e, cols, Pick(rows, ks, id), db)
  {
    if rows != [] {
      var n := |rows| - 1;
      PickViews(e, cols, rows[..n], ks[..n], id, db);
      assert NodeViews(e, cols, rows, db)[..n] == NodeViews(e, cols, rows[..n], db);
    }
  }

  ghost predicate SameIDs(vs: seq<View>, rows: seq<Row>)
  {
    |vs| == |rows| && forall i :: 0 <= i < |vs| ==> vs[i].row.id == rows[i].id
  }

  lemma {:induction false} PickSameIDs(vs: seq<View>, rows: seq<Row>, ks: seq<Option<int>>, id: int)
    requires SameIDs(vs, rows) && |rows| == |ks|
    ensures SameIDs(Pick(vs, ks, id), Pick(rows, ks, id))
    decreases |vs|
  {
    if vs != [] {
      var n := |vs| - 1;
      PickSameIDs(vs[..n], rows[..n], ks[..n], id);
    }
  }

  lemma RowsByID(a: seq<Row>, b: seq<Row>, table: seq<Row>)
    requires Unique(ID_KEY, table) && |a| == |b|
    requires forall i :: 0 <= i < |a| ==> a[i] in table && b[i] in table && a[i].id == b[i].id
    ensures a == b
  {
    forall i | 0 <= i < |a| ensures a[i] == b[i] {
      var x, y :| 0 <= x < |table| && 0 <= y < |table| && table[x] == a[i] && table[y] == b[i];
      assert ID_KEY(table[x]) == ID_KEY(table[y]);
    }
  }

  lemma NodeViewsIDs(e: Edges, cols: set<Column>, rows: seq<Row>, db: Tables)
    requires ID in cols
    ensures SameIDs(NodeViews(e, cols, rows, db), rows)
  {
    hide ColumnsOf, ForChildren, Select, NestedGroups;
  }

  lemma BatchViewsIDs(e: Edges, cols: set<Column>, rows: seq<Row>, db: Tables)
    requires ID in cols
    ensures SameIDs(BatchViews(e, cols, rows, db), rows)
  {
    hide ColumnsOf, ForChildren, GroupsOf, Lookup, Pick, GroupBatch, ProxyBatch, ParentBatch, ChildBatch;
  }

  // ----- one edge to accounts

  /** Key id gets from the batch of views what its own query gives. */
  ghost predicate OwnViews(e: Edges, cols: set<Column>, q: Own<Row>, key: Row -> Option<int>, ids: seq<int>, id: int, db: Tables)
  {
    var batch := Select(q.And(KeyIn(key, ids)), db.accounts);
    Pick(BatchViews(e, cols, batch, db), Keys(key, batch), id) ==
    NodeViews(e, cols, Select(q.And(KeyIn(key, [id])), db.accounts), db)
  }

  lemma OwnViewsGiveShare(e: Edges, cols: set<Column>, q: Own<Row>, key: Row -> Option<int>, ids: seq<int>, id: int, db: Tables)
    requires ID in cols && Unique(ID_KEY, db.accounts) && OwnViews(e, cols, q, key, ids, id, db)
    ensures OwnShare(q, key, ids, id, db.accounts)
  {
    hide Select, NodeView, NestedGroups, Pick, BatchViews;
    var batch, mine := Select(q.And(KeyIn(key, ids)), db.accounts), Select(q.And(KeyIn(key, [id])), db.accounts);
    var views := BatchViews(e, cols, batch, db);
    BatchViewsIDs(e, cols, batch, db);
    PickSameIDs(views, batch, Keys(key, batch), id);
    NodeViewsIDs(e, cols, mine, db);
    var share := Pick(batch, Keys(key, batch), id);
    forall i | 0 <= i < |share| ensures share[i] in db.accounts && mine[i] in db.accounts && share[i].id == mine[i].id {
      PickedFrom(batch, Keys(key, batch), id, i);
      SelectSound(q.And(KeyIn(key, ids)), db.accounts, share[i]);
      SelectSound(q.And(KeyIn(key, [id])), db.accounts, mine[i]);
    }
    RowsByID(share, mine, db.accounts);
  }

  lemma {:induction false} PickedFrom<T>(xs: seq<T>, ks: seq<Option<int>>, id: int, i: nat)
    requires |xs| == |ks| && i < |Pick(xs, ks, id)|
    ensures Pick(xs, ks, id)[i] in xs
    decreases |xs|
  {
    var n := |xs| - 1;
    if i < |Pick(xs[..n], ks[..n], id)| {
      PickedFrom(xs[..n], ks[..n], id, i);
      assert Pick(xs, ks, id)[i] in xs[..n];
    }
  }

  lemma SelectedKey<T>(q: Own<T>, key: T -> Option<int>, ids: seq<int>, table: seq<T>, n: nat)
    requires n < |Select(q.And(KeyIn(key, ids)), table)|
    ensures var k := key(Select(q.And(KeyIn(key, ids)), table)[n]); k.Some? && k.value in ids
  {
    hide Select;
    SelectSound(q.And(KeyIn(key, ids)), table, Select(q.And(KeyIn(key, ids)), table)[n]);
    assert Holds((q.preds + [KeyIn(key, ids)])[|q.preds|], Select(q.And(KeyIn(key, ids)), table)[n]);
  }

  /** Every view of the batch is in some share, so equal shares make equal batches. */
  lemma SharesMakeBatch(e: Edges, cols: set<Column>, q: Own<Row>, key: Row -> Option<int>, ids: seq<int>, db: Tables, n: nat)
    requires n < |Select(q.And(KeyIn(key, ids)), db.accounts)|
    requires forall id :: id in ids ==> OwnViews(e, cols, q, key, ids, id, db) && OwnShare(q, key, ids, id, db.accounts)
    ensures var batch := Select(q.And(KeyIn(key, ids)), db.accounts);
            BatchViews(e, cols, batch, db)[n] == NodeViews(e, cols, batch, db)[n]
  {
    hide Select, NodeView, NestedGroups, Pick, BatchViews;
    var batch := Select(q.And(KeyIn(key, ids)), db.accounts);
    var ks := Keys(key, batch);
    SelectedKey(q, key, ids, db.accounts, n);
    var id := ks[n].value;
    assert OwnViews(e, cols, q, key, ids, id, db) && OwnShare(q, key, ids, id, db.accounts);
    PickPlace(BatchViews(e, cols, batch, db), ks, id, n);
    PickPlace(NodeViews(e, cols, batch, db), ks, id, n);
    PickViews(e, cols, batch, ks, id, db);
    PickLength(BatchViews(e, cols, batch, db)[..n], ks[..n], id);
    PickLength(NodeViews(e, cols, batch, db)[..n], ks[..n], id);
  }

  /** One query for an edge to accounts gives every key the graphs its own query gives, if and
      only if its window is undisturbed and the graphs below the batch are right. */
  lemma EdgeExactly(e: Edges, cols: set<Column>, q: Own<Row>, key: Row -> Option<int>, ids: seq<int>, db: Tables)
    requires ID in cols && Unique(ID_KEY, db.accounts)
    ensures var batch := Select(q.And(KeyIn(key, ids)), db.accounts);
            (forall id :: id in ids ==> OwnViews(e, cols, q, key, ids, id, db)) <==>
            && Undisturbed(q, Keys(key, Matching(q, key, ids, db.accounts)))
            && BatchViews(e, cols, batch, db) == NodeViews(e, cols, batch, db)
  {
    var batch := Select(q.And(KeyIn(key, ids)), db.accounts);
    WindowedBatchExactly(q, key, ids, ID_KEY, db.accounts);
    hide Select, NodeView, NestedGroups, Pick, BatchViews, Undisturbed, Matching;
    if forall id :: id in ids ==> OwnViews(e, cols, q, key, ids, id, db) {
      forall id | id in ids ensures OwnShare(q, key, ids, id, db.accounts) {
        OwnViewsGiveShare(e, cols, q, key, ids, id, db);
      }
      forall n | 0 <= n < |batch| ensures BatchViews(e, cols, batch, db)[n] == NodeViews(e, cols, batch, db)[n] {
        SharesMakeBatch(e, cols, q, key, ids, db, n);
      }
    }
    if Undisturbed(q, Keys(key, Matching(q, key, ids, db.accounts))) && BatchViews(e, cols, batch, db) == NodeViews(e, cols, batch, db) {
      forall id | id in ids ensures OwnViews(e, cols, q, key, ids, id, db) {
        assert OwnShare(q, key, ids, id, db.accounts);
        PickViews(e, cols, batch, Keys(key, batch), id, db);
      }
    }
  }

  // ----- the edges of one batch of nodes

  function ParentIDs(rows: seq<Row>): seq<int>
  {
    DistinctKeys(Keys(PARENT_KEY, rows))
  }

  /** What the edges of a batch must satisfy for its graph to be the nested-loop graph. */
  ghost predicate Faithful(e: Edges, rows: seq<Row>, db: Tables)
    decreases e
  {
    && (e.groups.Some? ==> GroupsFaithful(e.groups.value, IDs(rows), db))
    && (e.proxy.Some? ==> WindowFaithful(e.proxy.value, PROXY_ID_KEY, DistinctKeys(ProxyKeys(rows)), db.proxies))
    && (e.parent.Some? ==>
          && WindowFaithful(e.parent.value.own, ID_KEY, ParentIDs(rows), db.accounts)
          && Faithful(e.parent.value.edges, ParentBatch(e, rows, db), db))
    && (e.children.Some? ==>
          && WindowFaithful(e.children.value.own, PARENT_KEY, IDs(rows), db.accounts)
          && Faithful(e.children.value.edges, ChildBatch(e, rows, db), db))
  }

  /** The window of the query is undisturbed by the keys of the rows it matches. */
  ghost predicate WindowFaithful<T>(q: Own<T>, key: T -> Option<int>, ids: seq<int>, table: seq<T>)
  {
    Undisturbed(q, Keys(key, Matching(q, key, ids, table)))
  }

  /** Without a window: for every two groups of an account the batch meets the one first that
      the account's own query meets first. With one: it is undisturbed by the accounts. */
  ghost predicate GroupsFaithful(plan: GroupPlan, ids: seq<int>, db: Tables)
  {
    if plan.own.Unwindowed() then
      forall a :: a in ids ==>
        MetAlike(SelectJoin(plan, ids, db), SelectJoin(plan, [a], db), NestedGroups(plan, a, db))
    else Undisturbed(plan.own, Accounts(db.joined(plan.own, ids)))
  }

  /** Which rows a window takes from joined rows is settled: the order terms of a groups query
      with a window decide every two groups, or the database always answers group by group. */
  ghost predicate WindowsSettled(e: Edges, db: Tables)
    decreases e
  {
    && (e.groups.Some? && !e.groups.value.own.Unwindowed() ==> WindowSettled(e.groups.value.own, db))
    && (e.parent.Some? ==> WindowsSettled(e.parent.value.edges, db))
    && (e.children.Some? ==> WindowsSettled(e.children.value.edges, db))
  }

  ghost predicate WindowSettled(own: Own<GroupRow>, db: Tables)
  {
    DistinctMemberships(db) && (Decides(own, db) || AlwaysGrouped(own, db))
  }

  ghost predicate AlwaysGrouped(own: Own<GroupRow>, db: Tables)
  {
    forall ids :: db.joined(own, ids) == GroupByGroup(own, ids, db)
  }

  lemma SettledIsShared(own: Own<GroupRow>, ids: seq<int>, db: Tables)
    requires Lawful(db) && WindowSettled(own, db)
    ensures Shared(own, ids, db)
  {
    hide Arranged, GroupByGroup, Shared, DistinctMemberships, Decides, Keyed;
    if Decides(own, db) {
      DecidedIsShared(own, ids, db);
    } else {
      GroupedIsShared(own, ids, db);
    }
  }

  lemma GroupsExactly(plan: GroupPlan, ids: seq<int>, db: Tables)
    requires Lawful(db) && (!plan.own.Unwindowed() ==> WindowSettled(plan.own, db))
    ensures (forall a :: a in ids ==> GroupsOf(SelectJoin(plan, ids, db), a) == NestedGroups(plan, a, db)) <==>
            GroupsFaithful(plan, ids, db)
  {
    hide Lawful, WindowSettled, Shared, MetAlike, GroupsOf, NestedGroups, SelectJoin, Undisturbed;
    if plan.own.Unwindowed() {
      forall a | a in ids
        ensures GroupsOf(SelectJoin(plan, ids, db), a) == NestedGroups(plan, a, db) <==>
                MetAlike(SelectJoin(plan, ids, db), SelectJoin(plan, [a], db), NestedGroups(plan, a, db))
      {
        GroupOrderExactly(plan, ids, a, db);
      }
    } else {
      SettledIsShared(plan.own, ids, db);
      WindowedGroupsExactly(plan, ids, db);
    }
  }

  /** The hash lookup finds for key id the proxy its own query returns. */
  ghost predicate ProxyFound(own: Own<ProxyRow>, batch: seq<ProxyRow>, id: int, db: Tables)
  {
    Lookup(batch, Keys(PROXY_ID_KEY, batch), Some(id)) == First(Select(own.And(KeyIn(PROXY_ID_KEY, [id])), db.proxies))
  }

  /** The proxy of every key is the one its own query returns. */
  lemma ProxiesExactly(own: Own<ProxyRow>, ks: seq<Option<int>>, db: Tables)
    requires Unique(PROXY_ID_KEY, db.proxies)
    ensures var batch := SelectByKeys(own, PROXY_ID_KEY, ks, db.proxies);
            (forall id :: Some(id) in ks ==> ProxyFound(own, batch, id, db))
            <==> WindowFaithful(own, PROXY_ID_KEY, DistinctKeys(ks), db.proxies)
  {
    var ids := DistinctKeys(ks);
    WindowedBatchExactly(own, PROXY_ID_KEY, ids, PROXY_ID_KEY, db.proxies);
    assert forall id :: Some(id) in ks <==> id in ids;
    ByKeys(own, PROXY_ID_KEY, ks, db.proxies);
    hide Select, Pick, Lookup, Undisturbed, Matching, DistinctKeys, SelectByKeys, OwnShare, ProxyFound, Unique;
    var batch := Select(own.And(KeyIn(PROXY_ID_KEY, ids)), db.proxies);
    forall id | id in ids ensures OwnShare(own, PROXY_ID_KEY, ids, id, db.proxies) <==> ProxyFound(own, batch, id, db) {
      ProxyOfOne(own, ids, id, db);
    }
  }

  lemma ProxyOfOne(own: Own<ProxyRow>, ids: seq<int>, id: int, db: Tables)
    requires Unique(PROXY_ID_KEY, db.proxies)
    ensures OwnShare(own, PROXY_ID_KEY, ids, id, db.proxies) <==>
            ProxyFound(own, Select(own.And(KeyIn(PROXY_ID_KEY, ids)), db.proxies), id, db)
  {
    hide Select, Pick, Lookup, Unique, First;
    var batch := Select(own.And(KeyIn(PROXY_ID_KEY, ids)), db.proxies);
    SelectUnique(PROXY_ID_KEY, own.And(KeyIn(PROXY_ID_KEY, ids)), db.proxies);
    LookupUnique(batch, batch, PROXY_ID_KEY, id);
    AtMostOne(own, PROXY_ID_KEY, id, db.proxies);
    FirstsEqual(Pick(batch, Keys(PROXY_ID_KEY, batch), id), Select(own.And(KeyIn(PROXY_ID_KEY, [id])), db.proxies));
  }

  /** A query for one value of a unique key returns one row at most. */
  lemma AtMostOne<T>(q: Own<T>, key: T -> Option<int>, id: int, table: seq<T>)
    requires Unique(key, table)
    ensures |Select(q.And(KeyIn(key, [id])), table)| <= 1
  {
    var one := q.And(KeyIn(key, [id]));
    var rows := Select(one, table);
    SelectUnique(key, one, table);
    forall k | 0 <= k < |rows| ensures key(rows[k]) == Some(id) {
      SelectSound(one, table, rows[k]);
      assert Holds((q.preds + [KeyIn(key, [id])])[|q.preds|], rows[k]);
    }
    hide Select;
    UniqueConstant(key, rows, Some(id));
  }

  lemma UniqueConstant<T>(key: T -> Option<int>, rows: seq<T>, k: Option<int>)
    requires Unique(key, rows)
    ensures (forall i :: 0 <= i < |rows| ==> key(rows[i]) == k) ==> |rows| <= 1
  {
    if |rows| > 1 {
      assert key(rows[0]) != key(rows[1]);
    }
  }

  /** The parent of every key, with its graph, is the one its own query gives. */
  lemma ParentsExactly(p: QTree, ks: seq<Option<int>>, db: Tables)
    requires Unique(ID_KEY, db.accounts)
    ensures var batch := SelectByKeys(p.own, ID_KEY, ks, db.accounts);
            var views := BatchViews(p.edges, ColumnsOf(p), batch, db);
            (forall id :: Some(id) in ks ==> ParentFound(p, DistinctKeys(ks), id, db))
            <==> WindowFaithful(p.own, ID_KEY, DistinctKeys(ks), db.accounts) && views == NodeViews(p.edges, ColumnsOf(p), batch, db)
  {
    var ids := DistinctKeys(ks);
    var cols := ColumnsOf(p);
    IDIsSelected(p);
    EdgeExactly(p.edges, cols, p.own, ID_KEY, ids, db);
    assert forall id :: Some(id) in ks <==> id in ids;
    hide Select, Pick, Lookup, Matching, DistinctKeys, ColumnsOf, NodeView, BatchViews, OwnViews, WindowFaithful, NodeViews, Undisturbed;
    assert WindowFaithful(p.own, ID_KEY, ids, db.accounts) <==>
           Undisturbed(p.own, Keys(ID_KEY, Matching(p.own, ID_KEY, ids, db.accounts))) by {
      WindowFaithfulIs(p.own, ID_KEY, ids, db.accounts);
    }
    ByKeys(p.own, ID_KEY, ks, db.accounts);
    forall id | id in ids
      ensures OwnViews(p.edges, cols, p.own, ID_KEY, ids, id, db) <==> ParentFound(p, ids, id, db)
    {
      ParentOfOne(p, ids, id, db);
    }
  }

  lemma WindowFaithfulIs<T>(q: Own<T>, key: T -> Option<int>, ids: seq<int>, table: seq<T>)
    ensures WindowFaithful(q, key, ids, table) <==> Undisturbed(q, Keys(key, Matching(q, key, ids, table)))
  {
  }

  /** Looking up no keys at all is the same as asking for none. */
  lemma ByKeys<T>(q: Own<T>, key: T -> Option<int>, ks: seq<Option<int>>, table: seq<T>)
    ensures SelectByKeys(q, key, ks, table) == Select(q.And(KeyIn(key, DistinctKeys(ks))), table)
  {
    NothingAsked(q, key, table);
  }

  /** The hash lookup finds for key id the parent its own query gives. */
  ghost predicate ParentFound(p: QTree, ids: seq<int>, id: int, db: Tables)
  {
    var batch := Select(p.own.And(KeyIn(ID_KEY, ids)), db.accounts);
    Lookup(BatchViews(p.edges, ColumnsOf(p), batch, db), Keys(ID_KEY, batch), Some(id)) ==
    First(NodeViews(p.edges, ColumnsOf(p), Select(p.own.And(KeyIn(ID_KEY, [id])), db.accounts), db))
  }

  lemma FirstsEqual<T>(a: seq<T>, b: seq<T>)
    requires |a| <= 1 && |b| <= 1
    ensures First(a) == First(b) <==> a == b
  {
  }

  lemma LookupUnique<T, U>(xs: seq<U>, rows: seq<T>, key: T -> Option<int>, id: int)
    requires |xs| == |rows| && Unique(key, rows)
    ensures Lookup(xs, Keys(key, rows), Some(id)) == First(Pick(xs, Keys(key, rows), id)) && |Pick(xs, Keys(key, rows), id)| <= 1
  {
    LookupIsFirst(xs, Keys(key, rows), id);
  }

  lemma ParentOfOne(p: QTree, ids: seq<int>, id: int, db: Tables)
    requires Unique(ID_KEY, db.accounts)
    ensures OwnViews(p.edges, ColumnsOf(p), p.own, ID_KEY, ids, id, db) <==> ParentFound(p, ids, id, db)
  {
    hide Select, Pick, Lookup, ColumnsOf, NodeView, BatchViews, Unique, First;
    var batch := Select(p.own.And(KeyIn(ID_KEY, ids)), db.accounts);
    var views := BatchViews(p.edges, ColumnsOf(p), batch, db);
    var mine := Select(p.own.And(KeyIn(ID_KEY, [id])), db.accounts);
    SelectUnique(ID_KEY, p.own.And(KeyIn(ID_KEY, ids)), db.accounts);
    LookupUnique(views, batch, ID_KEY, id);
    AtMostOne(p.own, ID_KEY, id, db.accounts);
    FirstsEqual(Pick(views, Keys(ID_KEY, batch), id), NodeViews(p.edges, ColumnsOf(p), mine, db));
  }

  lemma IDIsSelected(t: QTree)
    ensures ID in ColumnsOf(t) && ID in ColumnsOf(ForChildren(t))
  {
  }

  lemma NothingAsked<T>(q: Own<T>, key: T -> Option<int>, table: seq<T>)
    ensures Select(q.And(KeyIn(key, [])), table) == []
  {
    if Select(q.And(KeyIn(key, [])), table) != [] {
      SomethingAsked(q, key, [], table);
    }
  }

  lemma SomethingAsked<T>(q: Own<T>, key: T -> Option<int>, ids: seq<int>, table: seq<T>)
    requires Select(q.And(KeyIn(key, ids)), table) != []
    ensures ids != []
  {
    var one := q.And(KeyIn(key, ids));
    var r := Select(one, table)[0];
    SelectSound(one, table, r);
    assert Holds((q.preds + [KeyIn(key, ids)])[|q.preds|], r);
  }

  /** The children of every node, with their graphs, are those its own query gives. */
  lemma ChildrenExactly(c: QTree, ids: seq<int>, db: Tables)
    requires Unique(ID_KEY, db.accounts)
    ensures var batch := SelectChildren(c.own, ids, db);
            var cols := ColumnsOf(ForChildren(c));
            var views := BatchViews(c.edges, cols, batch, db);
            (forall id :: id in ids ==>
               Pick(views, Keys(PARENT_KEY, batch), id) ==
               NodeViews(c.edges, cols, Select(c.own.And(KeyIn(PARENT_KEY, [id])), db.accounts), db))
            <==> WindowFaithful(c.own, PARENT_KEY, ids, db.accounts) && views == NodeViews(c.edges, cols, batch, db)
  {
    IDIsSelected(c);
    EdgeExactly(c.edges, ColumnsOf(ForChildren(c)), c.own, PARENT_KEY, ids, db);
    hide Select, Pick, Undisturbed, Matching, ColumnsOf, ForChildren, NodeView, BatchViews;
  }

  // ----- one node, and all nodes of a batch

  ghost predicate GroupsRight(e: Edges, rows: seq<Row>, r: Row, db: Tables)
  {
    e.groups.Some? ==> GroupsOf(SelectJoin(e.groups.value, IDs(rows), db), r.id) == NestedGroups(e.groups.value, r.id, db)
  }

  ghost predicate ProxyRight(e: Edges, rows: seq<Row>, r: Row, db: Tables)
  {
    e.proxy.Some? && r.proxyID.Some? ==> ProxyFound(e.proxy.value, ProxyBatch(e, rows, db), r.proxyID.value, db)
  }

  ghost predicate ParentRight(e: Edges, rows: seq<Row>, r: Row, db: Tables)
  {
    e.parent.Some? && r.parentAccountID.Some? ==> ParentFound(e.parent.value, ParentIDs(rows), r.parentAccountID.value, db)
  }

  ghost predicate ChildrenRight(e: Edges, rows: seq<Row>, r: Row, db: Tables)
  {
    e.children.Some? ==>
      Pick(ChildViews(e, rows, db), Keys(PARENT_KEY, ChildBatch(e, rows, db)), r.id) ==
      NodeViews(e.children.value.edges, ColumnsOf(ForChildren(e.children.value)),
                Select(e.children.value.own.And(KeyIn(PARENT_KEY, [r.id])), db.accounts), db)
  }

  lemma NoProxy(e: Edges, rows: seq<Row>, r: Row, db: Tables)
    requires e.proxy.None? || r.proxyID.None?
    ensures var batch := ProxyBatch(e, rows, db);
            Lookup(batch, Keys(PROXY_ID_KEY, batch), r.proxyID) == None
  {
  }

  lemma NoParent(e: Edges, rows: seq<Row>, r: Row, db: Tables)
    requires e.parent.None? || r.parentAccountID.None?
    ensures Lookup(ParentViews(e, rows, db), Keys(ID_KEY, ParentBatch(e, rows, db)), r.parentAccountID) == None
  {
  }

  lemma NoChildren(e: Edges, rows: seq<Row>, r: Row, db: Tables)
    requires e.children.None?
    ensures Pick(ChildViews(e, rows, db), Keys(PARENT_KEY, ChildBatch(e, rows, db)), r.id) == []
  {
  }

  lemma NoRowsNoGroups(account: int)
    ensures GroupsOf([], account) == []
  {
  }

  lemma ParentRightIs(e: Edges, rows: seq<Row>, r: Row, db: Tables)
    requires e.parent.Some? && r.parentAccountID.Some?
    ensures ParentRight(e, rows, r, db) <==>
            Lookup(ParentViews(e, rows, db), Keys(ID_KEY, ParentBatch(e, rows, db)), r.parentAccountID) ==
            First(NodeViews(e.parent.value.edges, ColumnsOf(e.parent.value),
                            Select(e.parent.value.own.And(KeyIn(ID_KEY, [r.parentAccountID.value])), db.accounts), db))
  {
    ByKeys(e.parent.value.own, ID_KEY, Keys(PARENT_KEY, rows), db.accounts);
    hide Select, Lookup, ColumnsOf, NodeView, DistinctKeys, SelectByKeys;
  }

  /** The graph of one node is right exactly when each of its edges is. */
  lemma NodeExactly(e: Edges, cols: set<Column>, rows: seq<Row>, i: nat, db: Tables)
    requires i < |rows|
    ensures var r := rows[i];
            BatchViews(e, cols, rows, db)[i] == NodeView(e, cols, r, db) <==>
            GroupsRight(e, rows, r, db) && ProxyRight(e, rows, r, db) && ParentRight(e, rows, r, db) && ChildrenRight(e, rows, r, db)
  {
    hide Select, SelectJoin, NestedGroups, ColumnsOf, ForChildren, Lookup, Pick, ProxyBatch, ParentBatch, ChildBatch, ParentViews,
         ChildViews, Mask, LoadedBy, GroupsOf, ParentRight;
    var r := rows[i];
    NoRowsNoGroups(r.id);
    if e.proxy.None? || r.proxyID.None? {
      NoProxy(e, rows, r, db);
    }
    if e.parent.None? || r.parentAccountID.None? {
      NoParent(e, rows, r, db);
      ParentRightVacuous(e, rows, r, db);
    } else {
      ParentRightIs(e, rows, r, db);
    }
    if e.children.None? {
      NoChildren(e, rows, r, db);
    }
  }

  lemma ParentRightVacuous(e: Edges, rows: seq<Row>, r: Row, db: Tables)
    requires e.parent.None? || r.parentAccountID.None?
    ensures ParentRight(e, rows, r, db)
  {
  }

  lemma GroupsRightExactly(e: Edges, rows: seq<Row>, db: Tables)
    requires Lawful(db) && WindowsSettled(e, db)
    ensures (forall r :: r in rows ==> GroupsRight(e, rows, r, db)) <==> (e.groups.Some? ==> GroupsFaithful(e.groups.value, IDs(rows), db))
  {
    hide Lawful, WindowSettled, GroupsFaithful, SelectJoin, NestedGroups, GroupsOf;
    if e.groups.Some? {
      GroupsExactly(e.groups.value, IDs(rows), db);
      forall a | a in IDs(rows) ensures exists r :: r in rows && r.id == a {
        var i :| 0 <= i < |rows| && IDs(rows)[i] == a;
        assert rows[i] in rows;
      }
      forall r | r in rows ensures r.id in IDs(rows) {
        var i :| 0 <= i < |rows| && rows[i] == r;
        assert IDs(rows)[i] == r.id;
      }
    }
  }

  lemma ProxyRightExactly(e: Edges, rows: seq<Row>, db: Tables)
    requires Unique(PROXY_ID_KEY, db.proxies)
    ensures (forall r :: r in rows ==> ProxyRight(e, rows, r, db)) <==>
            (e.proxy.Some? ==> WindowFaithful(e.proxy.value, PROXY_ID_KEY, DistinctKeys(ProxyKeys(rows)), db.proxies))
  {
    hide WindowFaithful, ProxyFound, DistinctKeys, SelectByKeys, Unique;
    if e.proxy.Some? {
      ProxiesExactly(e.proxy.value, ProxyKeys(rows), db);
      forall id | Some(id) in ProxyKeys(rows) ensures exists r :: r in rows && r.proxyID == Some(id) {
        var i :| 0 <= i < |rows| && ProxyKeys(rows)[i] == Some(id);
        assert rows[i] in rows;
      }
      forall r | r in rows ensures r.proxyID in ProxyKeys(rows) {
        var i :| 0 <= i < |rows| && rows[i] == r;
        assert ProxyKeys(rows)[i] == r.proxyID;
      }
    }
  }

  lemma ParentRightExactly(e: Edges, rows: seq<Row>, db: Tables)
    requires Unique(ID_KEY, db.accounts)
    ensures (forall r :: r in rows ==> ParentRight(e, rows, r, db)) <==>
            (e.parent.Some? ==>
               && WindowFaithful(e.parent.value.own, ID_KEY, ParentIDs(rows), db.accounts)
               && ParentViews(e, rows, db) == NodeViews(e.parent.value.edges, ColumnsOf(e.parent.value), ParentBatch(e, rows, db), db))
  {
    hide WindowFaithful, ParentFound, DistinctKeys, SelectByKeys, Unique, ColumnsOf, NodeView, NodeViews;
    if e.parent.Some? {
      ParentsExactly(e.parent.value, Keys(PARENT_KEY, rows), db);
      forall id | Some(id) in Keys(PARENT_KEY, rows) ensures exists r :: r in rows && r.parentAccountID == Some(id) {
        var i :| 0 <= i < |rows| && Keys(PARENT_KEY, rows)[i] == Some(id);
        assert rows[i] in rows;
      }
      forall r | r in rows ensures r.parentAccountID in Keys(PARENT_KEY, rows) {
        var i :| 0 <= i < |rows| && rows[i] == r;
        assert Keys(PARENT_KEY, rows)[i] == r.parentAccountID;
      }
    }
  }

  lemma ChildrenRightExactly(e: Edges, rows: seq<Row>, db: Tables)
    requires Unique(ID_KEY, db.accounts)
    ensures (forall r :: r in rows ==> ChildrenRight(e, rows, r, db)) <==>
            (e.children.Some? ==>
               && WindowFaithful(e.children.value.own, PARENT_KEY, IDs(rows), db.accounts)
               && ChildViews(e, rows, db) ==
                  NodeViews(e.children.value.edges, ColumnsOf(ForChildren(e.children.value)), ChildBatch(e, rows, db), db))
  {
    hide WindowFaithful, SelectChildren, Unique, ColumnsOf, ForChildren, NodeView, NodeViews, Pick, Select;
    if e.children.Some? {
      ChildrenExactly(e.children.value, IDs(rows), db);
      forall a | a in IDs(rows) ensures exists r :: r in rows && r.id == a {
        var i :| 0 <= i < |rows| && IDs(rows)[i] == a;
        assert rows[i] in rows;
      }
      forall r | r in rows ensures r.id in IDs(rows) {
        var i :| 0 <= i < |rows| && rows[i] == r;
        assert IDs(rows)[i] == r.id;
      }
    }
  }

  // ----- the refinement

  lemma KeyedTables(db: Tables)
    requires Lawful(db)
    ensures Unique(ID_KEY, db.accounts) && Unique(PROXY_ID_KEY, db.proxies) && Unique(GROUP_ID_KEY, db.groups)
  {
  }

  /** For every query tree, windows included, every batch of nodes and every database: one query
      per edge builds, at every depth, the object graph that one query per node and edge would
      build, if and only if every edge is faithful. */
  lemma {:induction false} NestedLoopExactly(e: Edges, cols: set<Column>, rows: seq<Row>, db: Tables)
    requires Lawful(db) && WindowsSettled(e, db)
    ensures BatchViews(e, cols, rows, db) == NodeViews(e, cols, rows, db) <==> Faithful(e, rows, db)
    decreases e
  {
    hide *;
    GroupedBelow(e, db);
    if e.parent.Some? {
      NestedLoopExactly(e.parent.value.edges, ColumnsOf(e.parent.value), ParentBatch(e, rows, db), db);
    }
    if e.children.Some? {
      NestedLoopExactly(e.children.value.edges, ColumnsOf(ForChildren(e.children.value)), ChildBatch(e, rows, db), db);
    }
    KeyedTables(db);
    GroupsRightExactly(e, rows, db);
    ProxyRightExactly(e, rows, db);
    ParentRightExactly(e, rows, db);
    ChildrenRightExactly(e, rows, db);
    FaithfulParts(e, rows, db);
    ViewsBelow(e, rows, db);
    AllRight(e, cols, rows, db);
  }

  lemma GroupedBelow(e: Edges, db: Tables)
    requires WindowsSettled(e, db)
    ensures e.parent.Some? ==> WindowsSettled(e.parent.value.edges, db)
    ensures e.children.Some? ==> WindowsSettled(e.children.value.edges, db)
  {
  }

  lemma FaithfulParts(e: Edges, rows: seq<Row>, db: Tables)
    ensures Faithful(e, rows, db) <==>
            && (e.groups.Some? ==> GroupsFaithful(e.groups.value, IDs(rows), db))
            && (e.proxy.Some? ==> WindowFaithful(e.proxy.value, PROXY_ID_KEY, DistinctKeys(ProxyKeys(rows)), db.proxies))
            && (e.parent.Some? ==>
                  && WindowFaithful(e.parent.value.own, ID_KEY, ParentIDs(rows), db.accounts)
                  && Faithful(e.parent.value.edges, ParentBatch(e, rows, db), db))
            && (e.children.Some? ==>
                  && WindowFaithful(e.children.value.own, PARENT_KEY, IDs(rows), db.accounts)
                  && Faithful(e.children.value.edges, ChildBatch(e, rows, db), db))
  {
  }

  /** The views one level down are batches of views themselves. */
  lemma ViewsBelow(e: Edges, rows: seq<Row>, db: Tables)
    ensures e.parent.Some? ==>
              ParentViews(e, rows, db) == BatchViews(e.parent.value.edges, ColumnsOf(e.parent.value), ParentBatch(e, rows, db), db)
    ensures e.children.Some? ==>
              ChildViews(e, rows, db) ==
              BatchViews(e.children.value.edges, ColumnsOf(ForChildren(e.children.value)), ChildBatch(e, rows, db), db)
  {
  }

  lemma AllRight(e: Edges, cols: set<Column>, rows: seq<Row>, db: Tables)
    ensures BatchViews(e, cols, rows, db) == NodeViews(e, cols, rows, db) <==>
            && (forall r :: r in rows ==> GroupsRight(e, rows, r, db))
            && (forall r :: r in rows ==> ProxyRight(e, rows, r, db))
            && (forall r :: r in rows ==> ParentRight(e, rows, r, db))
            && (forall r :: r in rows ==> ChildrenRight(e, rows, r, db))
  {
    hide GroupsRight, ProxyRight, ParentRight, ChildrenRight, BatchViews, NodeView;
    forall i | 0 <= i < |rows|
      ensures BatchViews(e, cols, rows, db)[i] == NodeViews(e, cols, rows, db)[i] <==>
              GroupsRight(e, rows, rows[i], db) && ProxyRight(e, rows, rows[i], db) &&
              ParentRight(e, rows, rows[i], db) && ChildrenRight(e, rows, rows[i], db)
    {
      NodeExactly(e, cols, rows, i, db);
    }
    if BatchViews(e, cols, rows, db) == NodeViews(e, cols, rows, db) {
      forall r | r in rows
        ensures GroupsRight(e, rows, r, db) && ProxyRight(e, rows, r, db) && ParentRight(e, rows, r, db) && ChildrenRight(e, rows, r, db)
      {
        var i :| 0 <= i < |rows| && rows[i] == r;
      }
    }
  }

  /** No groups query of the tree leaves the order of the groups of these nodes, and of the nodes
      below them, to the database: its order terms decide it, or the database always answers
      group by group. */
  ghost predicate GroupsSettled(e: Edges, rows: seq<Row>, db: Tables)
    decreases e
  {
    && (e.groups.Some? ==>
          OrderSettled(e.groups.value.own, IDs(rows), db) || (DistinctMemberships(db) && AlwaysGrouped(e.groups.value.own, db)))
    && (e.parent.Some? ==> GroupsSettled(e.parent.value.edges, ParentBatch(e, rows, db), db))
    && (e.children.Some? ==> GroupsSettled(e.children.value.edges, ChildBatch(e, rows, db), db))
  }

  lemma SettledGroups(plan: GroupPlan, ids: seq<int>, db: Tables)
    requires Lawful(db) && plan.own.Unwindowed()
    requires OrderSettled(plan.own, ids, db) || (DistinctMemberships(db) && AlwaysGrouped(plan.own, db))
    ensures GroupsFaithful(plan, ids, db)
  {
    hide Lawful, OrderSettled, DistinctMemberships, GroupByGroup, MetAlike, GroupsOf, NestedGroups, SelectJoin;
    if OrderSettled(plan.own, ids, db) {
      SettledLists(plan, ids, db);
    } else {
      forall a | a in ids ensures GroupsOf(SelectJoin(plan, ids, db), a) == NestedGroups(plan, a, db) {
        GroupedOrder(plan, ids, a, db);
      }
    }
    GroupsExactly(plan, ids, db);
  }

  lemma UnwindowedIsFaithful<T>(q: Own<T>, key: T -> Option<int>, ids: seq<int>, table: seq<T>)
    requires q.Unwindowed()
    ensures WindowFaithful(q, key, ids, table)
  {
    hide Matching;
  }

  lemma {:induction false} PlainTreeIsFaithful(e: Edges, rows: seq<Row>, db: Tables)
    requires Lawful(db) && NoNestedWindow(e) && GroupsSettled(e, rows, db)
    ensures Faithful(e, rows, db)
    decreases e
  {
    if e.parent.Some? {
      PlainTreeIsFaithful(e.parent.value.edges, ParentBatch(e, rows, db), db);
      UnwindowedIsFaithful(e.parent.value.own, ID_KEY, ParentIDs(rows), db.accounts);
    }
    if e.children.Some? {
      PlainTreeIsFaithful(e.children.value.edges, ChildBatch(e, rows, db), db);
      UnwindowedIsFaithful(e.children.value.own, PARENT_KEY, IDs(rows), db.accounts);
    }
    if e.groups.Some? {
      SettledGroups(e.groups.value, IDs(rows), db);
    }
    if e.proxy.Some? {
      UnwindowedIsFaithful(e.proxy.value, PROXY_ID_KEY, DistinctKeys(ProxyKeys(rows)), db.proxies);
    }
    hide Lawful, GroupsFaithful, WindowFaithful, ParentBatch, ChildBatch, OrderSettled, AlwaysGrouped, DistinctKeys;
  }

  /** Without nested limits and offsets, and with no groups order left to the database, the
      batch builds the nested-loop graph at every depth. */
  lemma BatchRefinesNestedLoop(e: Edges, cols: set<Column>, rows: seq<Row>, db: Tables)
    requires Lawful(db) && NoNestedWindow(e) && GroupsSettled(e, rows, db)
    ensures BatchViews(e, cols, rows, db) == NodeViews(e, cols, rows, db)
  {
    hide *;
    PlainTreeIsFaithful(e, rows, db);
    NoWindowsToSettle(e, db);
    NestedLoopExactly(e, cols, rows, db);
  }

  lemma {:induction false} NoWindowsToSettle(e: Edges, db: Tables)
    requires NoNestedWindow(e)
    ensures WindowsSettled(e, db)
    decreases e
  {
    if e.parent.Some? {
      NoWindowsToSettle(e.parent.value.edges, db);
    }
    if e.children.Some? {
      NoWindowsToSettle(e.children.value.edges, db);
    }
  }

  // ----- over all databases with the same tables

  /** The order terms settle the order of groups at every depth: a condition on the query and the
      tables only. */
  ghost predicate OrdersSettled(e: Edges, rows: seq<Row>, db: Tables)
    decreases e
  {
    && (e.groups.Some? ==> OrderSettled(e.groups.value.own, IDs(rows), db))
    && (e.parent.Some? ==> OrdersSettled(e.parent.value.edges, ParentBatch(e, rows, db), db))
    && (e.children.Some? ==> OrdersSettled(e.children.value.edges, ChildBatch(e, rows, db), db))
  }

  /** Rows of accounts do not depend on how joined queries are answered. */
  lemma SameBatches(e: Edges, rows: seq<Row>, db: Tables, answers: Answers)
    ensures ParentBatch(e, rows, Answering(db, answers)) == ParentBatch(e, rows, db)
    ensures ChildBatch(e, rows, Answering(db, answers)) == ChildBatch(e, rows, db)
  {
  }

  lemma {:induction false} OrdersSettledAnyhow(e: Edges, rows: seq<Row>, db: Tables, answers: Answers)
    requires OrdersSettled(e, rows, db)
    ensures GroupsSettled(e, rows, Answering(db, answers))
    decreases e
  {
    hide OrderSettled, ParentBatch, ChildBatch, AlwaysGrouped, DistinctMemberships;
    SameBatches(e, rows, db, answers);
    if e.groups.Some? {
      SettledAnyhow(e.groups.value.own, IDs(rows), db, answers);
    }
    if e.parent.Some? {
      OrdersSettledAnyhow(e.parent.value.edges, ParentBatch(e, rows, db), db, answers);
    }
    if e.children.Some? {
      OrdersSettledAnyhow(e.children.value.edges, ChildBatch(e, rows, db), db, answers);
    }
  }

  /** An order that is not settled somewhere in the tree shows behind some lawful database. */
  lemma {:induction false} UnsettledTreeVaries(e: Edges, rows: seq<Row>, db: Tables) returns (answers: Answers)
    requires Keyed(db) && NoNestedWindow(e) && !OrdersSettled(e, rows, db)
    ensures Lawful(Answering(db, answers)) && !Faithful(e, rows, Answering(db, answers))
    decreases e
  {
    hide Keyed, Lawful, OrderSettled, ParentBatch, ChildBatch, GroupsFaithful, WindowFaithful, OwnLists, DistinctKeys;
    if e.groups.Some? && !OrderSettled(e.groups.value.own, IDs(rows), db) {
      answers := UnsettledVaries(e.groups.value, IDs(rows), db);
      UnfaithfulLists(e.groups.value, IDs(rows), Answering(db, answers));
    } else if e.parent.Some? && !OrdersSettled(e.parent.value.edges, ParentBatch(e, rows, db), db) {
      answers := UnsettledTreeVaries(e.parent.value.edges, ParentBatch(e, rows, db), db);
      SameBatches(e, rows, db, answers);
    } else {
      answers := UnsettledTreeVaries(e.children.value.edges, ChildBatch(e, rows, db), db);
      SameBatches(e, rows, db, answers);
    }
  }

  lemma UnfaithfulLists(plan: GroupPlan, ids: seq<int>, db: Tables)
    requires Lawful(db) && plan.own.Unwindowed() && !OwnLists(plan, ids, db)
    ensures !GroupsFaithful(plan, ids, db)
  {
    hide Lawful, GroupsFaithful, GroupsOf, SelectJoin, NestedGroups;
    GroupsExactly(plan, ids, db);
  }

  /** Without nested limits and offsets: behind every lawful database with these tables the batch
      builds the nested-loop graph at every depth, if and only if the order terms settle the
      order of groups at every depth. */
  lemma GraphSettledExactly(e: Edges, cols: set<Column>, rows: seq<Row>, db: Tables)
    requires Keyed(db) && NoNestedWindow(e)
    ensures (forall answers :: Lawful(Answering(db, answers)) ==> SameGraph(e, cols, rows, Answering(db, answers)))
            <==> OrdersSettled(e, rows, db)
  {
    hide Keyed, Lawful, OrdersSettled, NoNestedWindow, BatchViews, NodeView, Answering;
    if OrdersSettled(e, rows, db) {
      forall answers | Lawful(Answering(db, answers)) ensures SameGraph(e, cols, rows, Answering(db, answers)) {
        OrdersSettledAnyhow(e, rows, db, answers);
        BatchRefinesNestedLoop(e, cols, rows, Answering(db, answers));
      }
    } else {
      var answers := UnsettledTreeVaries(e, rows, db);
      NoWindowsToSettle(e, Answering(db, answers));
      NestedLoopExactly(e, cols, rows, Answering(db, answers));
      assert !SameGraph(e, cols, rows, Answering(db, answers));
    }
  }

  ghost predicate SameGraph(e: Edges, cols: set<Column>, rows: seq<Row>, db: Tables)
  {
    BatchViews(e, cols, rows, db) == NodeViews(e, cols, rows, db)
  }

  // ----- whatever order the database answers in

  /** The same graph up to the order of the groups of its nodes. */
  ghost predicate Alike(v: View, w: View)
    decreases v
  {
    && v.row == w.row && v.loaded == w.loaded && v.proxy == w.proxy
    && SameMembers(v.groups, w.groups) && Unique(GROUP_ID_KEY, v.groups) && Unique(GROUP_ID_KEY, w.groups)
    && (v.parent.None? <==> w.parent.None?)
    && (v.parent.Some? && w.parent.Some? ==> Alike(v.parent.value, w.parent.value))
    && |v.children| == |w.children|
    && forall i :: 0 <= i < |v.children| ==> Alike(v.children[i], w.children[i])
  }

  ghost predicate AllAlike(vs: seq<View>, ws: seq<View>)
  {
    |vs| == |ws| && forall i :: 0 <= i < |vs| ==> Alike(vs[i], ws[i])
  }

  lemma {:induction false} PickAlike(vs: seq<View>, ws: seq<View>, ks: seq<Option<int>>, id: int)
    requires AllAlike(vs, ws) && |vs| == |ks|
    ensures AllAlike(Pick(vs, ks, id), Pick(ws, ks, id))
    decreases |vs|
  {
    hide Alike;
    if vs != [] {
      var n := |vs| - 1;
      PickAlike(vs[..n], ws[..n], ks[..n], id);
    }
  }

  /** One edge to accounts without a window, given that the graphs below are alike. */
  lemma EdgeAlike(e: Edges, cols: set<Column>, q: Own<Row>, key: Row -> Option<int>, ids: seq<int>, id: int, db: Tables)
    requires Unique(ID_KEY, db.accounts) && q.Unwindowed() && id in ids
    requires var batch := Select(q.And(KeyIn(key, ids)), db.accounts);
             AllAlike(BatchViews(e, cols, batch, db), NodeViews(e, cols, batch, db))
    ensures var batch := Select(q.And(KeyIn(key, ids)), db.accounts);
            AllAlike(Pick(BatchViews(e, cols, batch, db), Keys(key, batch), id),
                     NodeViews(e, cols, Select(q.And(KeyIn(key, [id])), db.accounts), db))
  {
    var batch := Select(q.And(KeyIn(key, ids)), db.accounts);
    UnwindowedIsFaithful(q, key, ids, db.accounts);
    WindowedBatchExactly(q, key, ids, ID_KEY, db.accounts);
    hide Select, NodeView, Pick, BatchViews, AllAlike, Undisturbed, Matching;
    assert OwnShare(q, key, ids, id, db.accounts);
    PickAlike(BatchViews(e, cols, batch, db), NodeViews(e, cols, batch, db), Keys(key, batch), id);
    PickViews(e, cols, batch, Keys(key, batch), id, db);
  }

  lemma GroupsAlike(e: Edges, rows: seq<Row>, r: Row, db: Tables)
    requires Lawful(db) && r in rows && (e.groups.Some? ==> e.groups.value.own.Unwindowed())
    ensures var gs := GroupsOf(GroupBatch(e, rows, db), r.id);
            var hs := if e.groups.None? then [] else NestedGroups(e.groups.value, r.id, db);
            SameMembers(gs, hs) && Unique(GROUP_ID_KEY, gs) && Unique(GROUP_ID_KEY, hs)
  {
    NoRowsNoGroups(r.id);
    if e.groups.Some? {
      var i :| 0 <= i < |rows| && rows[i] == r;
      assert IDs(rows)[i] == r.id;
      EachGroupOnce(e.groups.value, IDs(rows), r.id, db);
      EachGroupOnce(e.groups.value, [r.id], r.id, db);
      hide Lawful, SelectJoin, GroupsOf, Belongs;
    }
  }

  lemma ProxyPlain(e: Edges, rows: seq<Row>, r: Row, db: Tables)
    requires Unique(PROXY_ID_KEY, db.proxies) && r in rows && (e.proxy.Some? ==> e.proxy.value.Unwindowed())
    ensures ProxyRight(e, rows, r, db)
  {
    if e.proxy.Some? {
      UnwindowedIsFaithful(e.proxy.value, PROXY_ID_KEY, DistinctKeys(ProxyKeys(rows)), db.proxies);
    }
    hide WindowFaithful, ProxyRight, DistinctKeys;
    ProxyRightExactly(e, rows, db);
  }

  ghost predicate OptionAlike(v: Option<View>, w: Option<View>)
  {
    (v.None? <==> w.None?) && (v.Some? && w.Some? ==> Alike(v.value, w.value))
  }

  lemma ParentAlike(e: Edges, rows: seq<Row>, r: Row, db: Tables)
    requires Unique(ID_KEY, db.accounts) && r in rows && e.parent.Some? && r.parentAccountID.Some? && e.parent.value.own.Unwindowed()
    requires AllAlike(ParentViews(e, rows, db),
                      NodeViews(e.parent.value.edges, ColumnsOf(e.parent.value), ParentBatch(e, rows, db), db))
    ensures OptionAlike(Lookup(ParentViews(e, rows, db), Keys(ID_KEY, ParentBatch(e, rows, db)), r.parentAccountID),
                        First(NodeViews(e.parent.value.edges, ColumnsOf(e.parent.value),
                                        Select(e.parent.value.own.And(KeyIn(ID_KEY, [r.parentAccountID.value])), db.accounts), db)))
  {
    var p, ids, id := e.parent.value, ParentIDs(rows), r.parentAccountID.value;
    ParentAsked(rows, r);
    ByKeys(p.own, ID_KEY, Keys(PARENT_KEY, rows), db.accounts);
    ViewsBelow(e, rows, db);
    hide Select, Pick, Lookup, ColumnsOf, NodeView, BatchViews, Alike, DistinctKeys, SelectByKeys, ParentViews, Unique;
    var batch := ParentBatch(e, rows, db);
    EdgeAlike(p.edges, ColumnsOf(p), p.own, ID_KEY, ids, id, db);
    SelectUnique(ID_KEY, p.own.And(KeyIn(ID_KEY, ids)), db.accounts);
    LookupUnique(ParentViews(e, rows, db), batch, ID_KEY, id);
  }

  lemma ParentAsked(rows: seq<Row>, r: Row)
    requires r in rows && r.parentAccountID.Some?
    ensures r.parentAccountID.value in ParentIDs(rows)
  {
    var i :| 0 <= i < |rows| && rows[i] == r;
    assert Keys(PARENT_KEY, rows)[i] == r.parentAccountID;
  }

  lemma ChildrenAlike(e: Edges, rows: seq<Row>, r: Row, db: Tables)
    requires Unique(ID_KEY, db.accounts) && r in rows && e.children.Some? && e.children.value.own.Unwindowed()
    requires AllAlike(ChildViews(e, rows, db),
                      NodeViews(e.children.value.edges, ColumnsOf(ForChildren(e.children.value)), ChildBatch(e, rows, db), db))
    ensures AllAlike(Pick(ChildViews(e, rows, db), Keys(PARENT_KEY, ChildBatch(e, rows, db)), r.id),
                     NodeViews(e.children.value.edges, ColumnsOf(ForChildren(e.children.value)),
                               Select(e.children.value.own.And(KeyIn(PARENT_KEY, [r.id])), db.accounts), db))
  {
    var c := e.children.value;
    var i :| 0 <= i < |rows| && rows[i] == r;
    assert IDs(rows)[i] == r.id;
    ViewsBelow(e, rows, db);
    hide Select, Pick, ColumnsOf, ForChildren, NodeView, BatchViews, AllAlike, ChildViews;
    EdgeAlike(c.edges, ColumnsOf(ForChildren(c)), c.own, PARENT_KEY, IDs(rows), r.id, db);
  }

  lemma NodeAlike(e: Edges, cols: set<Column>, rows: seq<Row>, i: nat, db: Tables)
    requires Lawful(db) && NoNestedWindow(e) && i < |rows|
    requires e.parent.Some? ==>
               AllAlike(ParentViews(e, rows, db),
                        NodeViews(e.parent.value.edges, ColumnsOf(e.parent.value), ParentBatch(e, rows, db), db))
    requires e.children.Some? ==>
               AllAlike(ChildViews(e, rows, db),
                        NodeViews(e.children.value.edges, ColumnsOf(ForChildren(e.children.value)), ChildBatch(e, rows, db), db))
    ensures Alike(BatchViews(e, cols, rows, db)[i], NodeView(e, cols, rows[i], db))
  {
    hide Lawful, Select, SelectJoin, NestedGroups, ColumnsOf, ForChildren, Lookup, Pick, ProxyBatch, ParentBatch, ChildBatch,
         ParentViews, ChildViews, Mask, LoadedBy, GroupsOf, GroupBatch, NoNestedWindow, SameMembers, Unique, Alike, AllAlike, First;
    var r := rows[i];
    assert r in rows;
    KeyedTables(db);
    NoNestedHere(e);
    GroupsAlike(e, rows, r, db);
    ProxyPlain(e, rows, r, db);
    if e.proxy.None? || r.proxyID.None? {
      NoProxy(e, rows, r, db);
    }
    if e.parent.Some? && r.parentAccountID.Some? {
      ParentAlike(e, rows, r, db);
    } else {
      NoParent(e, rows, r, db);
    }
    if e.children.Some? {
      ChildrenAlike(e, rows, r, db);
    } else {
      NoChildren(e, rows, r, db);
      NothingAlike();
    }
    ProxySame(e, rows, r, db);
    AlikeBuilt(BatchViews(e, cols, rows, db)[i], NodeView(e, cols, r, db));
  }

  lemma NothingAlike()
    ensures AllAlike([], [])
  {
  }

  lemma ProxySame(e: Edges, rows: seq<Row>, r: Row, db: Tables)
    requires ProxyRight(e, rows, r, db)
    ensures e.proxy.Some? && r.proxyID.Some? ==>
              Lookup(ProxyBatch(e, rows, db), Keys(PROXY_ID_KEY, ProxyBatch(e, rows, db)), r.proxyID) ==
              First(Select(e.proxy.value.And(KeyIn(PROXY_ID_KEY, [r.proxyID.value])), db.proxies))
  {
    hide Lookup, Select, ProxyBatch;
  }

  lemma AlikeBuilt(v: View, w: View)
    requires v.row == w.row && v.loaded == w.loaded && v.proxy == w.proxy
    requires SameMembers(v.groups, w.groups) && Unique(GROUP_ID_KEY, v.groups) && Unique(GROUP_ID_KEY, w.groups)
    requires OptionAlike(v.parent, w.parent) && AllAlike(v.children, w.children)
    ensures Alike(v, w)
  {
    hide SameMembers, Unique;
  }

  lemma NoNestedHere(e: Edges)
    requires NoNestedWindow(e)
    ensures e.groups.Some? ==> e.groups.value.own.Unwindowed()
    ensures e.proxy.Some? ==> e.proxy.value.Unwindowed()
    ensures e.parent.Some? ==> e.parent.value.own.Unwindowed()
    ensures e.children.Some? ==> e.children.value.own.Unwindowed()
  {
  }

  /** For every tree without nested limits and offsets and every legal answer of the database:
      the batch builds, at every depth, the nested-loop graph up to the order of groups. */
  lemma {:induction false} BatchAlike(e: Edges, cols: set<Column>, rows: seq<Row>, db: Tables)
    requires Lawful(db) && NoNestedWindow(e)
    ensures AllAlike(BatchViews(e, cols, rows, db), NodeViews(e, cols, rows, db))
    decreases e
  {
    ViewsBelow(e, rows, db);
    if e.parent.Some? {
      BatchAlike(e.parent.value.edges, ColumnsOf(e.parent.value), ParentBatch(e, rows, db), db);
    }
    if e.children.Some? {
      BatchAlike(e.children.value.edges, ColumnsOf(ForChildren(e.children.value)), ChildBatch(e, rows, db), db);
    }
    hide Lawful, NodeView, ColumnsOf, ForChildren, BatchViews, ParentViews, ChildViews, ParentBatch, ChildBatch, Alike, NoNestedWindow;
    forall i | 0 <= i < |rows| ensures Alike(BatchViews(e, cols, rows, db)[i], NodeViews(e, cols, rows, db)[i]) {
      NodeAlike(e, cols, rows, i, db);
    }
  }

  // ----- every run builds graphs of the requested shape

  lemma {:induction false} LookupFrom<T>(xs: seq<T>, ks: seq<Option<int>>, k: Option<int>)
    requires |xs| == |ks|
    ensures Lookup(xs, ks, k).Some? ==> Lookup(xs, ks, k).value in xs
  {
  }

  lemma {:induction false} ParentShaped(e: Edges, rows: seq<Row>, k: Option<int>, db: Tables)
    ensures var p := Lookup(ParentViews(e, rows, db), Keys(ID_KEY, ParentBatch(e, rows, db)), k);
            p.Some? ==> e.parent.Some? && Shaped(p.value, e.parent.value.edges)
    decreases e, 0
  {
    var p := Lookup(ParentViews(e, rows, db), Keys(ID_KEY, ParentBatch(e, rows, db)), k);
    ViewsBelow(e, rows, db);
    hide ParentViews, ParentBatch, ColumnsOf, Lookup, Shaped;
    if p.Some? {
      LookupFrom(ParentViews(e, rows, db), Keys(ID_KEY, ParentBatch(e, rows, db)), k);
      var n :| 0 <= n < |ParentViews(e, rows, db)| && ParentViews(e, rows, db)[n] == p.value;
      BatchShaped(e.parent.value.edges, ColumnsOf(e.parent.value), ParentBatch(e, rows, db), n, db);
    }
  }

  lemma {:induction false} ChildrenShaped(e: Edges, rows: seq<Row>, id: int, k: nat, db: Tables)
    requires e.children.Some? && k < |Pick(ChildViews(e, rows, db), Keys(PARENT_KEY, ChildBatch(e, rows, db)), id)|
    ensures Shaped(Pick(ChildViews(e, rows, db), Keys(PARENT_KEY, ChildBatch(e, rows, db)), id)[k], e.children.value.edges)
    decreases e, 0
  {
    ViewsBelow(e, rows, db);
    hide ChildViews, ChildBatch, ColumnsOf, ForChildren, Pick, Shaped;
    PickedFrom(ChildViews(e, rows, db), Keys(PARENT_KEY, ChildBatch(e, rows, db)), id, k);
    var n :| 0 <= n < |ChildViews(e, rows, db)| &&
             ChildViews(e, rows, db)[n] == Pick(ChildViews(e, rows, db), Keys(PARENT_KEY, ChildBatch(e, rows, db)), id)[k];
    BatchShaped(e.children.value.edges, ColumnsOf(ForChildren(e.children.value)), ChildBatch(e, rows, db), n, db);
  }

  /** Whatever the windows and whatever the database answers. */
  lemma {:induction false} BatchShaped(e: Edges, cols: set<Column>, rows: seq<Row>, i: nat, db: Tables)
    requires i < |rows|
    ensures Shaped(BatchViews(e, cols, rows, db)[i], e)
    decreases e, 1
  {
    var v, r := BatchViews(e, cols, rows, db)[i], rows[i];
    hide BatchViews, ParentViews, ChildViews, GroupBatch, GroupsOf, ProxyBatch, ParentBatch, ChildBatch, Mask, ColumnsOf, ForChildren,
         Lookup, Pick;
    NodeEdges(e, cols, rows, i, db);
    ParentShaped(e, rows, r.parentAccountID, db);
    if e.children.Some? {
      forall k | 0 <= k < |v.children| ensures Shaped(v.children[k], e.children.value.edges) {
        ChildrenShaped(e, rows, r.id, k, db);
      }
    } else {
      NoChildren(e, rows, r, db);
    }
  }

  lemma NodeEdges(e: Edges, cols: set<Column>, rows: seq<Row>, i: nat, db: Tables)
    requires i < |rows|
    ensures var v, r := BatchViews(e, cols, rows, db)[i], rows[i];
            && v.loaded == LoadedBy(e)
            && (e.groups.None? ==> v.groups == [])
            && (e.proxy.None? ==> v.proxy == None)
            && (e.parent.None? ==> v.parent == None)
            && v.parent == Lookup(ParentViews(e, rows, db), Keys(ID_KEY, ParentBatch(e, rows, db)), r.parentAccountID)
            && v.children == Pick(ChildViews(e, rows, db), Keys(PARENT_KEY, ChildBatch(e, rows, db)), r.id)
  {
    var r := rows[i];
    NoRowsNoGroups(r.id);
    if e.proxy.None? {
      NoProxy(e, rows, r, db);
    }
    if e.parent.None? {
      NoParent(e, rows, r, db);
    }
    hide GroupsOf, Lookup, Pick, ParentViews, ChildViews, ParentBatch, ChildBatch, Mask;
  }

  // ----- running the same query object again

  /** The query tree after a successful run over these nodes: each loader has appended its
      ID predicate to its nested query, which is why a second run sees a different tree. */
  function After(e: Edges, rows: seq<Row>, db: Tables): Edges
    decreases e, 0
  {
    if rows == [] then e
    else
      Edges(
        AfterGroups(e.groups),
        AfterProxy(e.proxy, rows),
        match e.parent case None => None case Some(p) => Some(AfterLookup(p, Keys(PARENT_KEY, rows), db)),
        match e.children case None => None case Some(c) => Some(AfterFetch(c, IDs(rows), db)))
  }

  function AfterGroups(groups: Option<GroupPlan>): Option<GroupPlan>
  {
    match groups case None => None case Some(g) => Some(g.(joins := g.joins + 1))
  }

  function AfterProxy(proxy: Option<Own<ProxyRow>>, rows: seq<Row>): Option<Own<ProxyRow>>
  {
    match proxy case None => None case Some(p) => Some(Narrowed(p, PROXY_ID_KEY, DistinctKeys(ProxyKeys(rows))))
  }

  /** The nested query of a parent edge, after looking these foreign keys up. */
  function AfterLookup(p: QTree, ks: seq<Option<int>>, db: Tables): QTree
    decreases p.edges, 1
  {
    var ids := DistinctKeys(ks);
    if ids == [] then p
    else QTree(p.own.And(KeyIn(ID_KEY, ids)), p.fields, After(p.edges, SelectByKeys(p.own, ID_KEY, ks, db.accounts), db), p.locks)
  }

  /** The nested query of a children edge, after fetching the children of these nodes. */
  function AfterFetch(c: QTree, ids: seq<int>, db: Tables): QTree
    decreases c.edges, 1
  {
    QTree(c.own.And(KeyIn(PARENT_KEY, ids)), ForChildren(c).fields, After(c.edges, SelectChildren(c.own, ids, db), db), c.locks)
  }

  /** An empty ID list returns before the predicate is appended. */
  function Narrowed<T>(own: Own<T>, key: T -> Option<int>, ids: seq<int>): Own<T>
  {
    if ids == [] then own else own.And(KeyIn(key, ids))
  }

  predicate NoGroups(e: Edges)
  {
    && e.groups.None?
    && (e.parent.Some? ==> NoGroups(e.parent.value.edges))
    && (e.children.Some? ==> NoGroups(e.children.value.edges))
  }

  /** Two trees that fetch the same rows and columns at every level of this run. */
  predicate SameRun(e: Edges, f: Edges, rows: seq<Row>, db: Tables)
    decreases e
  {
    && LoadedBy(e) == LoadedBy(f)
    && e.groups.None? && f.groups.None?
    && ProxyBatch(e, rows, db) == ProxyBatch(f, rows, db)
    && ParentBatch(e, rows, db) == ParentBatch(f, rows, db)
    && ChildBatch(e, rows, db) == ChildBatch(f, rows, db)
    && (e.parent.Some? && ParentBatch(e, rows, db) != [] ==>
          && ColumnsOf(e.parent.value) == ColumnsOf(f.parent.value)
          && SameRun(e.parent.value.edges, f.parent.value.edges, ParentBatch(e, rows, db), db))
    && (e.children.Some? && ChildBatch(e, rows, db) != [] ==>
          && ColumnsOf(ForChildren(e.children.value)) == ColumnsOf(ForChildren(f.children.value))
          && SameRun(e.children.value.edges, f.children.value.edges, ChildBatch(e, rows, db), db))
  }

  lemma {:induction false} SameRunSameViews(e: Edges, f: Edges, cols: set<Column>, rows: seq<Row>, db: Tables)
    requires SameRun(e, f, rows, db)
    ensures BatchViews(e, cols, rows, db) == BatchViews(f, cols, rows, db)
    decreases e
  {
    hide Pick, Lookup, Mask, ColumnsOf, ForChildren, ProxyBatch, ParentBatch, ChildBatch, GroupsOf;
    if e.parent.Some? && ParentBatch(e, rows, db) != [] {
      SameRunSameViews(e.parent.value.edges, f.parent.value.edges, ColumnsOf(e.parent.value), ParentBatch(e, rows, db), db);
    }
    assert ParentViews(e, rows, db) == ParentViews(f, rows, db);
    if e.children.Some? && ChildBatch(e, rows, db) != [] {
      SameRunSameViews(e.children.value.edges, f.children.value.edges, ColumnsOf(ForChildren(e.children.value)),
                       ChildBatch(e, rows, db), db);
    }
    assert ChildViews(e, rows, db) == ChildViews(f, rows, db);
  }

  lemma {:induction false} SameRunReflexive(e: Edges, rows: seq<Row>, db: Tables)
    requires NoGroups(e)
    ensures SameRun(e, e, rows, db)
    decreases e
  {
    hide ColumnsOf, ForChildren, ProxyBatch, ParentBatch, ChildBatch;
    if e.parent.Some? {
      SameRunReflexive(e.parent.value.edges, ParentBatch(e, rows, db), db);
    }
    if e.children.Some? {
      SameRunReflexive(e.children.value.edges, ChildBatch(e, rows, db), db);
    }
  }

  lemma NarrowedAgain<T>(own: Own<T>, key: T -> Option<int>, ids: seq<int>, table: seq<T>)
    requires ids != []
    ensures Select(Narrowed(own, key, ids).And(KeyIn(key, ids)), table) == Select(own.And(KeyIn(key, ids)), table)
  {
    SelectAgain(own.And(KeyIn(key, ids)), KeyIn(key, ids), table);
  }

  lemma AfterShape(f: Edges, rows: seq<Row>, db: Tables)
    ensures LoadedBy(After(f, rows, db)) == LoadedBy(f)
    ensures After(f, rows, db).parent.Some? <==> f.parent.Some?
    ensures After(f, rows, db).children.Some? <==> f.children.Some?
    ensures After(f, rows, db).groups.Some? <==> f.groups.Some?
    ensures After(f, rows, db).proxy.Some? <==> f.proxy.Some?
  {
  }

  lemma LookupKeepsColumns(p: QTree, ks: seq<Option<int>>, db: Tables)
    ensures ColumnsOf(AfterLookup(p, ks, db)) == ColumnsOf(p)
  {
    AfterShape(p.edges, SelectByKeys(p.own, ID_KEY, ks, db.accounts), db);
    hide After, SpecColumns;
  }

  lemma FetchKeepsColumns(c: QTree, ids: seq<int>, db: Tables)
    ensures ColumnsOf(ForChildren(AfterFetch(c, ids, db))) == ColumnsOf(ForChildren(c))
  {
    AfterShape(c.edges, SelectChildren(c.own, ids, db), db);
    hide After, SpecColumns;
  }

  lemma ParentBatchAgain(f: Edges, rows: seq<Row>, db: Tables)
    ensures ParentBatch(After(f, rows, db), rows, db) == ParentBatch(f, rows, db)
    ensures f.parent.Some? ==> ColumnsOf(After(f, rows, db).parent.value) == ColumnsOf(f.parent.value)
    ensures f.parent.Some? && ParentBatch(f, rows, db) != [] ==>
              After(f, rows, db).parent.value.edges == After(f.parent.value.edges, ParentBatch(f, rows, db), db)
  {
    var ids := DistinctKeys(Keys(PARENT_KEY, rows));
    hide ColumnsOf;
    if f.parent.Some? && rows != [] {
      LookupKeepsColumns(f.parent.value, Keys(PARENT_KEY, rows), db);
      if ids != [] {
        NarrowedAgain(f.parent.value.own, ID_KEY, ids, db.accounts);
      }
    }
  }

  lemma ChildBatchAgain(f: Edges, rows: seq<Row>, db: Tables)
    ensures ChildBatch(After(f, rows, db), rows, db) == ChildBatch(f, rows, db)
    ensures f.children.Some? ==>
              ColumnsOf(ForChildren(After(f, rows, db).children.value)) == ColumnsOf(ForChildren(f.children.value))
    ensures f.children.Some? && rows != [] ==>
              After(f, rows, db).children.value.edges == After(f.children.value.edges, ChildBatch(f, rows, db), db)
  {
    hide ColumnsOf, ForChildren;
    if f.children.Some? && rows != [] {
      FetchKeepsColumns(f.children.value, IDs(rows), db);
      var p := KeyIn(PARENT_KEY, IDs(rows));
      SelectAgain(f.children.value.own.And(p), p, db.accounts);
    }
  }

  lemma ProxyBatchAgain(f: Edges, rows: seq<Row>, db: Tables)
    ensures ProxyBatch(After(f, rows, db), rows, db) == ProxyBatch(f, rows, db)
  {
    var ids := DistinctKeys(ProxyKeys(rows));
    if f.proxy.Some? && rows != [] && ids != [] {
      NarrowedAgain(f.proxy.value, PROXY_ID_KEY, ids, db.proxies);
    }
  }

  lemma SameShape(e: Edges, f: Edges, rows: seq<Row>, db: Tables)
    requires LoadedBy(e) == LoadedBy(f)
    ensures e.parent.Some? <==> f.parent.Some?
    ensures e.children.Some? <==> f.children.Some?
  {
  }

  lemma ChildBatchRows(e: Edges, rows: seq<Row>, db: Tables)
    requires ChildBatch(e, rows, db) != []
    ensures rows != []
  {
    var c := e.children.value.own.And(KeyIn(PARENT_KEY, IDs(rows)));
    var r := ChildBatch(e, rows, db)[0];
    SelectSound(c, db.accounts, r);
    assert Holds(c.preds[|c.preds| - 1], r);
  }

  lemma {:induction false} RunKeepsSame(e: Edges, f: Edges, rows: seq<Row>, db: Tables)
    requires SameRun(e, f, rows, db)
    ensures SameRun(e, After(f, rows, db), rows, db)
    decreases e
  {
    hide ColumnsOf, ForChildren, ProxyBatch, ParentBatch, ChildBatch, After, LoadedBy;
    AfterShape(f, rows, db);
    SameShape(e, f, rows, db);
    ProxyBatchAgain(f, rows, db);
    ParentBatchAgain(f, rows, db);
    ChildBatchAgain(f, rows, db);
    if e.parent.Some? && ParentBatch(e, rows, db) != [] {
      RunKeepsSame(e.parent.value.edges, f.parent.value.edges, ParentBatch(e, rows, db), db);
    }
    if e.children.Some? && ChildBatch(e, rows, db) != [] {
      RunKeepsSame(e.children.value.edges, f.children.value.edges, ChildBatch(e, rows, db), db);
      ChildBatchRows(e, rows, db);
    }
  }

  /** The tree after k successful runs over the same nodes and an unchanged database. */
  function Runs(e: Edges, k: nat, rows: seq<Row>, db: Tables): Edges
  {
    if k == 0 then e else After(Runs(e, k - 1, rows, db), rows, db)
  }

  lemma {:induction false} RunsSame(e: Edges, k: nat, rows: seq<Row>, db: Tables)
    requires NoGroups(e)
    ensures SameRun(e, Runs(e, k, rows, db), rows, db)
  {
    if k == 0 {
      SameRunReflexive(e, rows, db);
    } else {
      RunsSame(e, k - 1, rows, db);
      RunKeepsSame(e, Runs(e, k - 1, rows, db), rows, db);
    }
  }

  /** However often a query object without a groups edge has run before, it builds the same
      object graph again, although every run appends one more ID predicate per edge. */
  lemma RerunSameGraph(e: Edges, k: nat, cols: set<Column>, rows: seq<Row>, db: Tables)
    requires NoGroups(e)
    ensures BatchViews(Runs(e, k, rows, db), cols, rows, db) == BatchViews(e, cols, rows, db)
  {
    RunsSame(e, k, rows, db);
    SameRunSameViews(e, Runs(e, k, rows, db), cols, rows, db);
  }
}
