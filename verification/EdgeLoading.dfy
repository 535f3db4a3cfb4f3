/** The loaders edge by edge: what an edge shows after loading, and the loader methods that
    need no nested account query. */
module EdgeLoading {
  import opened Wrappers
  import opened AccountSchema
  import opened Relational
  import opened JoinSpec
  import opened JoinBatches
  import opened JoinGroups
  import opened JoinTheorems
  import opened AccountGraph
  import opened Loaders

  class ProxyQuery {
    var own: Own<ProxyRow>

    constructor (own: Own<ProxyRow>)
      ensures this.own == own
    {
      this.own := own;
    }
  }

  /** joins counts the closures loadGroups has appended. */
  class GroupQuery {
    var own: Own<GroupRow>
    var joins: nat

    constructor (own: Own<GroupRow>, joins: nat)
      ensures this.own == own && this.joins == joins
    {
      this.own, this.joins := own, joins;
    }
  }

  /** An edge after loading: it shows the view looked up for it, or was left as it was. */
  ghost predicate Shows(p: Account?, was: Account?, v: Option<View>, within: set<Account>)
    reads within
  {
    match v
    case None => p == was
    case Some(view) => p != null && p in within && p.view == view
  }

  /** What a successful run returns: one distinct node per view, settled among fresh objects. */
  ghost predicate Delivered(nodes: seq<Account>, views: seq<View>, within: set<Account>)
    reads within
  {
    && Closed(within)
    && |nodes| == |views|
    && (forall i, k :: 0 <= i < k < |nodes| ==> nodes[i] != nodes[k])
    && (forall i :: 0 <= i < |nodes| ==> nodes[i] in within && nodes[i].view == views[i])
  }

  // ----- parents

  /** The views of the parents fetched for the foreign keys ks. */
  ghost function ParentsFor(p: QTree, ks: seq<Option<int>>, db: Tables): seq<View>
  {
    BatchViews(p.edges, ColumnsOf(p), SelectByKeys(p.own, ID_KEY, ks, db.accounts), db)
  }

  /** The parent view one of the foreign keys leads to. */
  ghost function LookedUp(p: QTree, ks: seq<Option<int>>, k: Option<int>, db: Tables): Option<View>
  {
    Lookup(ParentsFor(p, ks, db), Keys(ID_KEY, SelectByKeys(p.own, ID_KEY, ks, db.accounts)), k)
  }

  /** The fetched parents, by ID: all of them were asked for. */
  lemma NearParents(t: QTree, ks: seq<Option<int>>, near: seq<Account>, within: set<Account>, db: Tables)
    requires DistinctKeys(ks) != []
    requires Delivered(near, ParentsFor(t, ks, db), within)
    ensures Closed(within)
    ensures var nearKeys := Keys(ID_KEY, SelectByKeys(t.own, ID_KEY, ks, db.accounts));
            && |nearKeys| == |near|
            && (forall n :: 0 <= n < |near| ==> nearKeys[n] == Some(near[n].row.id))
            && (forall n :: 0 <= n < |near| ==> nearKeys[n] in ks)
  {
    IDIsSelected(t);
    var ids := DistinctKeys(ks);
    var own := t.own.And(KeyIn(ID_KEY, ids));
    var batch := Select(own, db.accounts);
    hide ColumnsOf, DistinctKeys;
    forall n | 0 <= n < |near|
      ensures ID_KEY(batch[n]) == Some(near[n].row.id) && ID_KEY(batch[n]) in ks
    {
      assert near[n].Settled(within);
      SelectSound(own, db.accounts, batch[n]);
      assert Holds(own.preds[|own.preds| - 1], batch[n]);
    }
  }

  lemma TargetShows(t: QTree, ks: seq<Option<int>>, near: seq<Account>, nearKeys: seq<Option<int>>, k: Option<int>, was: Account?,
                    within: set<Account>, db: Tables)
    requires |near| == |nearKeys| && nearKeys == Keys(ID_KEY, SelectByKeys(t.own, ID_KEY, ks, db.accounts))
    requires Delivered(near, ParentsFor(t, ks, db), within)
    ensures Shows(Target<Account?>(near, nearKeys, k, was), was, LookedUp(t, ks, k, db), within)
  {
    hide BatchViews, SelectByKeys;
  }

  /** After loadParent: each node shows the parent its key leads to, or what it showed before. */
  ghost predicate ParentsShown(nodes: seq<Account>, was: seq<Account?>, t: QTree, ks: seq<Option<int>>,
                                      within: set<Account>, db: Tables)
    reads nodes`parent, within
  {
    && |was| == |nodes| == |ks|
    && Closed(within)
    && forall i :: 0 <= i < |nodes| ==> Shows(nodes[i].parent, was[i], LookedUp(t, ks, ks[i], db), within)
  }

  method AttachFetchedParents(nodes: seq<Account>, ghost was: seq<Account?>, ghost ks: seq<Option<int>>,
                                     nodeids: map<int, seq<Account>>, near: seq<Account>, ghost t: QTree,
                                     ghost within: set<Account>, ghost db: Tables)
    returns (err: Option<QueryError>)
    requires |ks| == |was| == |nodes|
    requires forall i :: 0 <= i < |nodes| ==> ks[i] == nodes[i].row.parentAccountID && was[i] == nodes[i].parent && nodes[i] !in within
    requires Indexes(nodeids, nodes, ks) && DistinctKeys(ks) != []
    requires Delivered(near, ParentsFor(t, ks, db), within)
    modifies nodes`parent
    ensures err == None && ParentsShown(nodes, was, t, ks, within, db)
  {
    NearParents(t, ks, near, within, db);
    hide Closed, Delivered, ParentsFor, SelectByKeys, LookedUp, DistinctKeys, Indexes, Shows, Target;
    ghost var nearKeys := Keys(ID_KEY, SelectByKeys(t.own, ID_KEY, ks, db.accounts));
    err := AttachParents(nodes, ks, nodeids, near, nearKeys);
    forall i | 0 <= i < |nodes|
      ensures Shows(nodes[i].parent, was[i], LookedUp(t, ks, ks[i], db), within)
    {
      TargetShows(t, ks, near, nearKeys, ks[i], was[i], within, db);
    }
  }

  /** With no foreign key to look up, loadParent returns before it asks anything. */
  lemma LeftAlone(nodes: seq<Account>, was: seq<Account?>, t: QTree, ks: seq<Option<int>>, db: Tables)
    requires |ks| == |was| == |nodes| && DistinctKeys(ks) == []
    requires forall i :: 0 <= i < |nodes| ==> was[i] == nodes[i].parent
    ensures ParentsShown(nodes, was, t, ks, {}, db)
    ensures AfterLookup(t, ks, db) == t
  {
    assert forall i :: 0 <= i < |nodes| ==> LookedUp(t, ks, ks[i], db) == None;
  }

  // ----- children

  /** The views of all children fetched for these node IDs. */
  ghost function ChildrenFor(c: QTree, ids: seq<int>, db: Tables): seq<View>
  {
    BatchViews(c.edges, ColumnsOf(ForChildren(c)), SelectChildren(c.own, ids, db), db)
  }

  /** The views of the children of one of the nodes. */
  ghost function ChildrenOf(c: QTree, ids: seq<int>, id: int, db: Tables): seq<View>
  {
    Pick(ChildrenFor(c, ids, db), Keys(PARENT_KEY, SelectChildren(c.own, ids, db)), id)
  }

  lemma ForeignKeySelected(c: QTree)
    ensures ParentAccountID in ColumnsOf(ForChildren(c))
  {
  }

  /** The fetched children: every foreign key is set and belongs to one of the nodes. */
  lemma NearChildren(c: QTree, ids: seq<int>, near: seq<Account>, within: set<Account>, db: Tables)
    requires Delivered(near, ChildrenFor(c, ids, db), within)
    ensures Closed(within)
    ensures var nearKeys := Keys(PARENT_KEY, SelectChildren(c.own, ids, db));
            && |nearKeys| == |near|
            && (forall n :: 0 <= n < |near| ==> nearKeys[n] == near[n].row.parentAccountID)
            && (forall n :: 0 <= n < |near| ==> nearKeys[n].Some? && nearKeys[n] in Wrapped(ids))
  {
    ForeignKeySelected(c);
    var own := c.own.And(KeyIn(PARENT_KEY, ids));
    var batch := Select(own, db.accounts);
    hide ColumnsOf, ForChildren;
    forall n | 0 <= n < |near|
      ensures PARENT_KEY(batch[n]) == near[n].row.parentAccountID
      ensures PARENT_KEY(batch[n]).Some? && PARENT_KEY(batch[n]) in Wrapped(ids)
    {
      assert near[n].Settled(within);
      SelectSound(own, db.accounts, batch[n]);
      assert Holds(own.preds[|own.preds| - 1], batch[n]);
      var i :| 0 <= i < |ids| && ids[i] == batch[n].parentAccountID.value;
      assert Wrapped(ids)[i] == PARENT_KEY(batch[n]);
    }
  }

  lemma {:induction false} PickParallel(near: seq<Account>, views: seq<View>, ks: seq<Option<int>>, id: int, within: set<Account>)
    requires |near| == |views| == |ks|
    requires forall n :: 0 <= n < |near| ==> near[n] in within && near[n].view == views[n]
    ensures Lists(Pick(near, ks, id), Pick(views, ks, id), within)
  {
    if near != [] {
      var n := |near| - 1;
      PickParallel(near[..n], views[..n], ks[..n], id, within);
    }
  }

  lemma GrownLists(c: QTree, nodes: seq<Account>, ids: seq<int>, near: seq<Account>, nearKeys: seq<Option<int>>, i: nat,
                   within: set<Account>, db: Tables)
    requires i < |nodes| == |ids|
    requires |near| == |nearKeys| && nearKeys == Keys(PARENT_KEY, SelectChildren(c.own, ids, db))
    requires Delivered(near, ChildrenFor(c, ids, db), within)
    ensures Lists(Grown([], Owns(nodes, Wrapped(ids), i), near, nearKeys, ids[i]), ChildrenAt(nodes, ids, i, c, db), within)
  {
    hide BatchViews, SelectChildren, Owns;
    PickParallel(near, ChildrenFor(c, ids, db), nearKeys, ids[i], within);
    assert [] + Pick(near, nearKeys, ids[i]) == Pick(near, nearKeys, ids[i]);
  }

  /** What node i must list: its children if no later node has its ID, else nothing. */
  ghost function ChildrenAt(nodes: seq<Account>, ids: seq<int>, i: nat, t: QTree, db: Tables): seq<View>
    requires i < |nodes| == |ids|
  {
    if Owns(nodes, Wrapped(ids), i) then ChildrenOf(t, ids, ids[i], db) else []
  }

  /** After loadChildren: each owning node lists its children, every other node lists none. */
  ghost predicate ChildrenShown(nodes: seq<Account>, ids: seq<int>, t: QTree, within: set<Account>, db: Tables)
    reads nodes`children, within
  {
    && |nodes| == |ids|
    && Closed(within)
    && forall i :: 0 <= i < |nodes| ==>
         Lists(nodes[i].children, ChildrenAt(nodes, ids, i, t, db), within)
  }

  ghost predicate Lists(children: seq<Account>, views: seq<View>, within: set<Account>)
    reads within
  {
    && |children| == |views|
    && forall k :: 0 <= k < |children| ==> children[k] in within && children[k].view == views[k]
  }

  method InitChildren(nodes: seq<Account>)
    modifies nodes`children
    ensures forall i :: 0 <= i < |nodes| ==> nodes[i].children == []
  {
    for i := 0 to |nodes|
      invariant forall k :: 0 <= k < i ==> nodes[k].children == []
    {
      nodes[i].children := [];
    }
  }

  method AttachFetchedChildren(nodes: seq<Account>, ghost ids: seq<int>, nodeids: map<int, Account>, near: seq<Account>,
                                      ghost t: QTree, ghost within: set<Account>, ghost db: Tables)
    returns (err: Option<QueryError>)
    requires |ids| == |nodes|
    requires forall i :: 0 <= i < |nodes| ==> ids[i] == nodes[i].row.id && nodes[i].children == [] && nodes[i] !in within
    requires LastByID(nodeids, nodes, Wrapped(ids))
    requires Delivered(near, ChildrenFor(t, ids, db), within)
    modifies nodes`children
    ensures err == None && ChildrenShown(nodes, ids, t, within, db)
  {
    hide *;
    NearChildren(t, ids, near, within, db);
    ghost var nearKeys := Keys(PARENT_KEY, SelectChildren(t.own, ids, db));
    err := AttachChildren(nodes, Wrapped(ids), nodeids, near, nearKeys);
    forall i | 0 <= i < |nodes|
      ensures Lists(nodes[i].children, ChildrenAt(nodes, ids, i, t, db), within)
    {
      GrownLists(t, nodes, ids, near, nearKeys, i, within, db);
    }
    AllChildrenShown(nodes, ids, t, within, db);
  }

  lemma AllChildrenShown(nodes: seq<Account>, ids: seq<int>, t: QTree, within: set<Account>, db: Tables)
    requires |ids| == |nodes| && Closed(within)
    requires forall i :: 0 <= i < |nodes| ==> Lists(nodes[i].children, ChildrenAt(nodes, ids, i, t, db), within)
    ensures ChildrenShown(nodes, ids, t, within, db)
  {
  }

  /** No groups query of the tree was joined by an earlier run. */
  predicate Unjoined(e: Edges)
  {
    && (e.groups.Some? ==> e.groups.value.joins == 0)
    && (e.parent.Some? ==> Unjoined(e.parent.value.edges))
    && (e.children.Some? ==> Unjoined(e.children.value.edges))
  }

  // ----- proxies and groups

  /** The nested run of loadProxy: the driver may fail, otherwise one fresh node per row. */
  method FetchProxies(query: ProxyQuery, db: Tables, ids: seq<int>) returns (r: Result<seq<Proxy>, QueryError>)
    modifies query
    ensures r.Failure? ==> r.error == Driver
    ensures r.Success? ==> ProxyRows(r.value) == Select(old(query.own).And(KeyIn(PROXY_ID_KEY, ids)), db.proxies)
    ensures query.own == old(query.own).And(KeyIn(PROXY_ID_KEY, ids))
  {
    query.own := query.own.And(KeyIn(PROXY_ID_KEY, ids));
    if * {
      return Failure(Driver);
    }
    var rows := Select(query.own, db.proxies);
    var near: seq<Proxy> := [];
    for i := 0 to |rows|
      invariant ProxyRows(near) == rows[..i]
      invariant query.own == old(query.own).And(KeyIn(PROXY_ID_KEY, ids))
    {
      var p := new Proxy(rows[i]);
      near := near + [p];
    }
    assert rows[..|rows|] == rows;
    return Success(near);
  }

  function ProxyRows(ps: seq<Proxy>): (rows: seq<ProxyRow>)
    ensures |rows| == |ps| && forall i :: 0 <= i < |ps| ==> rows[i] == ps[i].row
  {
    seq(|ps|, i requires 0 <= i < |ps| => ps[i].row)
  }

  ghost predicate ShowsProxy(p: Proxy?, was: Proxy?, v: Option<ProxyRow>)
  {
    match v
    case None => p == was
    case Some(row) => p != null && p.row == row
  }

  ghost function ProxyFor(own: Own<ProxyRow>, ks: seq<Option<int>>, k: Option<int>, db: Tables): Option<ProxyRow>
  {
    var batch := SelectByKeys(own, PROXY_ID_KEY, ks, db.proxies);
    Lookup(batch, Keys(PROXY_ID_KEY, batch), k)
  }

  /** After loadProxy: each node shows the proxy its key leads to, or what it showed before. */
  ghost predicate ProxiesShown(nodes: seq<Account>, was: seq<Proxy?>, own: Own<ProxyRow>, ks: seq<Option<int>>, db: Tables)
    reads nodes`proxy
  {
    && |was| == |nodes| == |ks|
    && forall i :: 0 <= i < |nodes| ==> ShowsProxy(nodes[i].proxy, was[i], ProxyFor(own, ks, ks[i], db))
  }

  lemma NearProxies(own: Own<ProxyRow>, ks: seq<Option<int>>, near: seq<Proxy>, db: Tables)
    requires DistinctKeys(ks) != []
    requires ProxyRows(near) == SelectByKeys(own, PROXY_ID_KEY, ks, db.proxies)
    ensures var nearKeys := Keys(PROXY_ID_KEY, ProxyRows(near));
            && (forall n :: 0 <= n < |near| ==> nearKeys[n] == Some(near[n].row.id))
            && (forall n :: 0 <= n < |near| ==> nearKeys[n] in ks)
  {
    var q := own.And(KeyIn(PROXY_ID_KEY, DistinctKeys(ks)));
    hide DistinctKeys;
    forall n | 0 <= n < |near| ensures PROXY_ID_KEY(ProxyRows(near)[n]) in ks {
      SelectSound(q, db.proxies, ProxyRows(near)[n]);
      assert Holds(q.preds[|q.preds| - 1], ProxyRows(near)[n]);
    }
  }

  /** loadProxy: as loadParent, over proxies. */
  method LoadProxy(query: ProxyQuery, db: Tables, nodes: seq<Account>, ghost was: seq<Proxy?>, ks: seq<Option<int>>)
    returns (err: Option<QueryError>)
    requires |ks| == |was| == |nodes|
    requires forall i :: 0 <= i < |nodes| ==> ks[i] == nodes[i].row.proxyID && was[i] == nodes[i].proxy
    modifies query, nodes`proxy
    ensures err.Some? ==> err.value.Driver?
    ensures DistinctKeys(ks) == [] ==> err == None && query.own == old(query.own)
    ensures err == None ==> ProxiesShown(nodes, was, old(query.own), ks, db)
    ensures err == None ==> query.own == Narrowed(old(query.own), PROXY_ID_KEY, DistinctKeys(ks))
  {
    ghost var own := query.own;
    var ids, nodeids := CollectKeys(nodes, ks);
    if ids == [] {
      return None;
    }
    hide Select, DistinctKeys, Lookup, Target, Indexes;
    var res := FetchProxies(query, db, ids);
    if res.Failure? {
      return Some(res.error);
    }
    NearProxies(own, ks, res.value, db);
    ghost var nearKeys := Keys(PROXY_ID_KEY, ProxyRows(res.value));
    err := AttachProxies(nodes, ks, nodeids, res.value, nearKeys);
    forall i | 0 <= i < |nodes|
      ensures ShowsProxy(nodes[i].proxy, was[i], ProxyFor(own, ks, ks[i], db))
    {
      TargetShowsProxy(res.value, nearKeys, ks[i], was[i]);
    }
  }

  lemma TargetShowsProxy(near: seq<Proxy>, nearKeys: seq<Option<int>>, k: Option<int>, was: Proxy?)
    requires |near| == |nearKeys|
    ensures ShowsProxy(Target<Proxy?>(near, nearKeys, k, was), was, Lookup(ProxyRows(near), nearKeys, k))
  {
  }

  /** The joined run of loadGroups over the rows of groups and account_groups. */
  method FetchJoined(query: GroupQuery, db: Tables, ids: seq<int>) returns (r: Result<seq<JoinRow>, QueryError>)
    requires query.joins == 0
    modifies query
    ensures query.own == old(query.own) && query.joins == old(query.joins) + 1
    ensures r.Failure? ==> r.error == Driver
    ensures r.Success? ==> r.value == SelectJoin(GroupPlan(query.own, old(query.joins)), ids, db)
  {
    query.joins := query.joins + 1;
    if * {
      return Failure(Driver);
    }
    r := Success(SelectJoin(GroupPlan(query.own, 0), ids, db));
  }

  /** After loadGroups: each owning node lists its joined groups, every other node lists none. */
  ghost predicate GroupsShown(nodes: seq<Account>, ids: seq<int>, rows: seq<JoinRow>)
    reads nodes`groups
  {
    && |nodes| == |ids|
    && forall i :: 0 <= i < |nodes| ==> GroupRows(nodes[i].groups) == GroupsAt(nodes, ids, i, rows)
  }

  ghost function GroupsAt(nodes: seq<Account>, ids: seq<int>, i: nat, rows: seq<JoinRow>): seq<GroupRow>
    requires i < |nodes| == |ids|
  {
    if Owns(nodes, Wrapped(ids), i) then GroupsOf(rows, ids[i]) else []
  }

  method InitGroups(nodes: seq<Account>)
    modifies nodes`groups
    ensures forall i :: 0 <= i < |nodes| ==> nodes[i].groups == []
  {
    for i := 0 to |nodes|
      invariant forall k :: 0 <= k < i ==> nodes[k].groups == []
    {
      nodes[i].groups := [];
    }
  }

  /** loadGroups over any join rows of these nodes, repeated rows included: each owning node
      lists its distinct groups in order of first appearance, whatever order the maps are
      visited in, and the "unexpected groups node" error cannot occur. */
  method GroupNodes(nodes: seq<Account>, ids: seq<int>, byID: map<int, Account>, rows: seq<JoinRow>) returns (err: Option<QueryError>)
    requires |ids| == |nodes|
    requires forall i :: 0 <= i < |nodes| ==> ids[i] == nodes[i].row.id && nodes[i].groups == []
    requires LastByID(byID, nodes, Wrapped(ids))
    requires forall k :: 0 <= k < |rows| ==> rows[k].0 in ids
    modifies nodes`groups
    ensures err == None && GroupsShown(nodes, ids, rows)
  {
    hide Owns, Members, LastByID, GrownGroups;
    assert forall k :: 0 <= k < |rows| ==> rows[k].0 in byID by {
      KnownAccounts(byID, nodes, ids, rows);
    }
    var near, nids := ScanJoin(nodes, Wrapped(ids), byID, rows);
    forall n | 0 <= n < |near| ensures HasJoin(rows, near[n].row.id) {
      AppearanceIDs(rows, near[n].row.id);
      assert GroupRows(near)[n].id == near[n].row.id;
    }
    err := AttachGroups(nodes, Wrapped(ids), nids, near, rows);
    forall i | 0 <= i < |nodes| ensures GroupRows(nodes[i].groups) == GroupsAt(nodes, ids, i, rows) {
      GrownFromNothing(Owns(nodes, Wrapped(ids), i), rows, ids[i]);
    }
  }

  lemma KnownAccounts(byID: map<int, Account>, nodes: seq<Account>, ids: seq<int>, rows: seq<JoinRow>)
    requires |ids| == |nodes| && LastByID(byID, nodes, Wrapped(ids))
    requires forall k :: 0 <= k < |rows| ==> rows[k].0 in ids
    ensures forall k :: 0 <= k < |rows| ==> rows[k].0 in byID
  {
    forall k | 0 <= k < |rows| ensures rows[k].0 in byID {
      var i :| 0 <= i < |ids| && ids[i] == rows[k].0;
      assert Wrapped(ids)[i] == Some(rows[k].0);
    }
  }

  lemma GrownFromNothing(owner: bool, rows: seq<JoinRow>, account: int)
    ensures GrownGroups(GroupRows([]), owner, FirstAppearance(rows), rows, account) == if owner then GroupsOf(rows, account) else []
  {
  }

  /** Every row of the windowed join belongs to one of the nodes. */
  lemma SelectJoinAccounts(plan: GroupPlan, ids: seq<int>, db: Tables)
    requires Lawful(db)
    ensures forall k :: 0 <= k < |SelectJoin(plan, ids, db)| ==> SelectJoin(plan, ids, db)[k].0 in ids
  {
    var all := db.joined(plan.own, ids);
    assert Arranged(plan.own, ids, db, all);
    forall k | 0 <= k < |SelectJoin(plan, ids, db)| ensures SelectJoin(plan, ids, db)[k].0 in ids {
      var row := SelectJoin(plan, ids, db)[k];
      assert row in all;
      ArrangedMembers(plan.own, ids, db, all, row);
    }
  }

  method LoadGroups(query: GroupQuery, db: Tables, nodes: seq<Account>, ids: seq<int>) returns (err: Option<QueryError>)
    requires |ids| == |nodes| && query.joins == 0 && Lawful(db)
    requires forall i :: 0 <= i < |nodes| ==> ids[i] == nodes[i].row.id
    modifies query, nodes`groups
    ensures query.own == old(query.own) && query.joins == 1
    ensures err.Some? ==> err.value.Driver?
    ensures err == None ==> GroupsShown(nodes, ids, SelectJoin(GroupPlan(query.own, 0), ids, db))
  {
    var byID := IndexByID(nodes, Wrapped(ids));
    InitGroups(nodes);
    var res := FetchJoined(query, db, ids);
    if res.Failure? {
      return Some(res.error);
    }
    SelectJoinAccounts(GroupPlan(query.own, 0), ids, db);
    err := GroupNodes(nodes, ids, byID, res.value);
  }

  // ----- all edges of a batch of nodes, against the rows they were built from

  ghost predicate ShownGroups(nodes: seq<Account>, e: Edges, rows: seq<Row>, db: Tables)
    requires |nodes| == |rows|
    reads nodes`groups
  {
    forall i :: 0 <= i < |nodes| ==> GroupRows(nodes[i].groups) == GroupsOf(GroupBatch(e, rows, db), rows[i].id)
  }

  ghost predicate ShownProxies(nodes: seq<Account>, e: Edges, rows: seq<Row>, db: Tables)
    requires |nodes| == |rows|
    reads nodes`proxy
  {
    var batch := ProxyBatch(e, rows, db);
    forall i :: 0 <= i < |nodes| ==> ShowsProxy(nodes[i].proxy, null, Lookup(batch, Keys(PROXY_ID_KEY, batch), rows[i].proxyID))
  }

  ghost predicate ShownParents(nodes: seq<Account>, e: Edges, rows: seq<Row>, within: set<Account>, db: Tables)
    requires |nodes| == |rows|
    reads nodes`parent, within
  {
    && Closed(within)
    && forall i :: 0 <= i < |nodes| ==>
         Shows(nodes[i].parent, null,
               Lookup(ParentViews(e, rows, db), Keys(ID_KEY, ParentBatch(e, rows, db)), rows[i].parentAccountID), within)
  }

  ghost predicate ShownChildren(nodes: seq<Account>, e: Edges, rows: seq<Row>, within: set<Account>, db: Tables)
    requires |nodes| == |rows|
    reads nodes`children, within
  {
    && Closed(within)
    && forall i :: 0 <= i < |nodes| ==>
         Lists(nodes[i].children, Pick(ChildViews(e, rows, db), Keys(PARENT_KEY, ChildBatch(e, rows, db)), rows[i].id), within)
  }

  lemma OwnedByUnique(nodes: seq<Account>, rows: seq<Row>, i: nat)
    requires i < |nodes| == |rows| && Unique(ID_KEY, rows)
    ensures Owns(nodes, Wrapped(IDs(rows)), i)
  {
    forall a, b | 0 <= a < b < |rows| ensures Wrapped(IDs(rows))[a] != Wrapped(IDs(rows))[b] {
      assert ID_KEY(rows[a]) != ID_KEY(rows[b]);
    }
    DistinctNodesOwn(nodes, Wrapped(IDs(rows)), i);
  }

  const PROXY_KEY: Row -> Option<int> := (r: Row) => r.proxyID

  function NodeIDs(nodes: seq<Account>): (ids: seq<int>)
    reads nodes
    ensures |ids| == |nodes| && forall i :: 0 <= i < |nodes| ==> ids[i] == nodes[i].row.id
  {
    if nodes == [] then []
    else
      var n := |nodes| - 1;
      NodeIDs(nodes[..n]) + [nodes[n].row.id]
  }

  /** The nodes of a batch hold the selected columns of its rows. */
  ghost predicate RowsRead(nodes: seq<Account>, t: QTree, rows: seq<Row>)
    reads nodes`row, nodes`loaded
  {
    && |nodes| == |rows|
    && (forall i, k :: 0 <= i < k < |nodes| ==> nodes[i] != nodes[k])
    && (forall i :: 0 <= i < |nodes| ==> nodes[i].row == Mask(rows[i], ColumnsOf(t)) && nodes[i].loaded == LoadedBy(t.edges))
  }

  ghost predicate FlatBlank(nodes: seq<Account>)
    reads nodes`groups, nodes`proxy
  {
    forall i :: 0 <= i < |nodes| ==> nodes[i].groups == [] && nodes[i].proxy == null
  }

  ghost predicate TreeBlank(nodes: seq<Account>)
    reads nodes`parent, nodes`children
  {
    forall i :: 0 <= i < |nodes| ==> nodes[i].parent == null && nodes[i].children == []
  }

  lemma EdgeKeysSelected(t: QTree)
    ensures ID in ColumnsOf(t)
    ensures t.edges.parent.Some? ==> ParentAccountID in ColumnsOf(t)
    ensures t.edges.proxy.Some? ==> ProxyID in ColumnsOf(t)
  {
  }

  /** The columns a node was read with include every key its edges need. */
  lemma KeysOfRows(nodes: seq<Account>, t: QTree, rows: seq<Row>)
    requires RowsRead(nodes, t, rows)
    ensures NodeIDs(nodes) == IDs(rows)
    ensures t.edges.parent.Some? ==> NodeKeys(nodes, PARENT_KEY) == Keys(PARENT_KEY, rows)
    ensures t.edges.proxy.Some? ==> NodeKeys(nodes, PROXY_KEY) == ProxyKeys(rows)
  {
    EdgeKeysSelected(t);
    hide ColumnsOf;
  }

  ghost function GroupPart(q: GroupQuery?): Option<GroupPlan>
    reads q
  {
    if q == null then None else Some(GroupPlan(q.own, q.joins))
  }

  ghost function ProxyPart(q: ProxyQuery?): Option<Own<ProxyRow>>
    reads q
  {
    if q == null then None else Some(q.own)
  }

  method LoadGroupsEdge(query: GroupQuery?, db: Tables, nodes: seq<Account>, ghost t: QTree, ghost rows: seq<Row>)
    returns (err: Option<QueryError>)
    requires RowsRead(nodes, t, rows) && Unique(ID_KEY, rows) && FlatBlank(nodes) && Lawful(db)
    requires GroupPart(query) == t.edges.groups && (query != null ==> query.joins == 0)
    modifies if query == null then {} else {query}, nodes`groups
    ensures err.Some? ==> err.value.Driver?
    ensures err == None ==> ShownGroups(nodes, t.edges, rows, db)
    ensures err == None ==> GroupPart(query) == AfterGroups(t.edges.groups)
  {
    KeysOfRows(nodes, t, rows);
    hide SelectJoin, GroupsOf, Owns, Unique, Mask, ColumnsOf, Lawful;
    if query == null {
      forall i | 0 <= i < |nodes| ensures GroupRows(nodes[i].groups) == GroupsOf(GroupBatch(t.edges, rows, db), rows[i].id) {
        NoRowsNoGroups(rows[i].id);
      }
      return None;
    }
    err := LoadGroups(query, db, nodes, NodeIDs(nodes));
    forall i | 0 <= i < |nodes| {
      OwnedByUnique(nodes, rows, i);
    }
  }

  method LoadProxyEdge(query: ProxyQuery?, db: Tables, nodes: seq<Account>, ghost t: QTree, ghost rows: seq<Row>)
    returns (err: Option<QueryError>)
    requires RowsRead(nodes, t, rows) && forall i :: 0 <= i < |nodes| ==> nodes[i].proxy == null
    requires ProxyPart(query) == t.edges.proxy
    modifies if query == null then {} else {query}, nodes`proxy
    ensures err.Some? ==> err.value.Driver?
    ensures err == None ==> ShownProxies(nodes, t.edges, rows, db)
    ensures err == None ==> ProxyPart(query) == AfterProxy(t.edges.proxy, rows)
  {
    hide SelectByKeys, Lookup, ShowsProxy, DistinctKeys, Mask, ColumnsOf, Narrowed, ProxiesShown, ShownProxies, RowsRead;
    KeysOfRows(nodes, t, rows);
    RowsReadLength(nodes, t, rows);
    if query == null {
      NoProxyShown(nodes, t.edges, rows, db);
      return None;
    }
    ghost var was := seq(|nodes|, i requires 0 <= i < |nodes| => null as Proxy?);
    err := LoadProxy(query, db, nodes, was, NodeKeys(nodes, PROXY_KEY));
    if err == None {
      ProxiesOfRows(nodes, t.edges, rows, db);
    }
  }

  lemma RowsReadLength(nodes: seq<Account>, t: QTree, rows: seq<Row>)
    requires RowsRead(nodes, t, rows)
    ensures |nodes| == |rows|
  {
  }

  /** Nodes without a proxy that were given the proxies of their rows show them. */
  lemma ProxiesOfRows(nodes: seq<Account>, e: Edges, rows: seq<Row>, db: Tables)
    requires |nodes| == |rows| && e.proxy.Some?
    requires ProxiesShown(nodes, seq(|nodes|, i requires 0 <= i < |nodes| => null as Proxy?), e.proxy.value, ProxyKeys(rows), db)
    ensures ShownProxies(nodes, e, rows, db)
  {
    hide SelectByKeys, Lookup, DistinctKeys;
  }

  lemma NoProxyYet(nodes: seq<Account>)
    requires FlatBlank(nodes)
    ensures forall i :: 0 <= i < |nodes| ==> nodes[i].proxy == null
  {
  }

  lemma NoProxyShown(nodes: seq<Account>, e: Edges, rows: seq<Row>, db: Tables)
    requires |nodes| == |rows| && e.proxy.None? && forall i :: 0 <= i < |nodes| ==> nodes[i].proxy == null
    ensures ShownProxies(nodes, e, rows, db)
  {
  }

  /** A fresh node: the selected columns of its row, no edge loaded yet. */
  ghost predicate BlankNode(node: Account, loaded: Loaded, cols: set<Column>, row: Row)
    reads node
  {
    && node.row == Mask(row, cols)
    && node.loaded == loaded
    && node.groups == [] && node.proxy == null && node.parent == null && node.children == []
  }

  lemma ShownTogether(nodes: seq<Account>, e: Edges, rows: seq<Row>, below: set<Account>, more: set<Account>, db: Tables)
    requires |nodes| == |rows| && ShownParents(nodes, e, rows, below, db) && ShownChildren(nodes, e, rows, more, db)
    ensures ShownParents(nodes, e, rows, below + more, db) && ShownChildren(nodes, e, rows, below + more, db)
  {
    ClosedUnion(below, more);
    hide Lookup, ParentViews, ParentBatch, Pick, ChildViews, ChildBatch;
  }

  /** The edges that need no nested account query. */
  method LoadFlatEdges(groups: GroupQuery?, proxy: ProxyQuery?, db: Tables, nodes: seq<Account>, ghost t: QTree, ghost rows: seq<Row>)
    returns (err: Option<QueryError>)
    requires RowsRead(nodes, t, rows) && Unique(ID_KEY, rows) && FlatBlank(nodes) && Lawful(db)
    requires GroupPart(groups) == t.edges.groups && ProxyPart(proxy) == t.edges.proxy && (groups != null ==> groups.joins == 0)
    modifies if groups == null then {} else {groups}, if proxy == null then {} else {proxy}, nodes`groups, nodes`proxy
    ensures err.Some? ==> err.value.Driver?
    ensures err == None ==> ShownGroups(nodes, t.edges, rows, db) && ShownProxies(nodes, t.edges, rows, db)
    ensures err == None ==> GroupPart(groups) == AfterGroups(t.edges.groups)
    ensures err == None ==> ProxyPart(proxy) == AfterProxy(t.edges.proxy, rows)
  {
    hide *;
    NoProxyYet(nodes);
    err := LoadGroupsEdge(groups, db, nodes, t, rows);
    if err == None {
      err := LoadProxyEdge(proxy, db, nodes, t, rows);
    }
  }

  lemma SettledAmongMore(a: Account, below: set<Account>, within: set<Account>)
    requires a.Settled(below) && below <= within
    ensures a.Settled(within)
  {
  }

  /** A node whose edges show the views of its row, and which was given its own view, is settled. */
  lemma NodeSettled(nodes: seq<Account>, t: QTree, rows: seq<Row>, i: nat, below: set<Account>, db: Tables)
    requires RowsRead(nodes, t, rows) && i < |nodes| && nodes[i].view == BatchViews(t.edges, ColumnsOf(t), rows, db)[i]
    requires ShownGroups(nodes, t.edges, rows, db) && ShownProxies(nodes, t.edges, rows, db)
    requires ShownParents(nodes, t.edges, rows, below, db) && ShownChildren(nodes, t.edges, rows, below, db)
    ensures nodes[i].Settled(below)
  {
    hide Mask, ColumnsOf, LoadedBy, GroupsOf, GroupBatch, ProxyBatch, ParentBatch, ChildBatch, ParentViews, ChildViews, Lookup, Pick, Closed;
  }

  /** When every edge of a batch shows its views, the nodes are delivered. */
  ghost method Seal(nodes: seq<Account>, t: QTree, rows: seq<Row>, below: set<Account>, db: Tables) returns (within: set<Account>)
    requires RowsRead(nodes, t, rows) && forall i :: 0 <= i < |nodes| ==> nodes[i] !in below
    requires ShownGroups(nodes, t.edges, rows, db) && ShownProxies(nodes, t.edges, rows, db)
    requires ShownParents(nodes, t.edges, rows, below, db) && ShownChildren(nodes, t.edges, rows, below, db)
    modifies nodes`view
    ensures within == below + set a | a in nodes
    ensures Delivered(nodes, BatchViews(t.edges, ColumnsOf(t), rows, db), within)
  {
    hide Mask, ColumnsOf, LoadedBy, ShownGroups, ShownProxies, ShownChildren, BatchViews, Account.Settled;
    var views := BatchViews(t.edges, ColumnsOf(t), rows, db);
    within := below + set a | a in nodes;
    assert Closed(below);
    forall i | 0 <= i < |nodes| {
      nodes[i].view := views[i];
    }
    forall a | a in within ensures a.Settled(within) {
      if a in below {
        assert a.Settled(below);
      } else {
        var i :| 0 <= i < |nodes| && nodes[i] == a;
        NodeSettled(nodes, t, rows, i, below, db);
      }
      SettledAmongMore(a, below, within);
    }
  }
}
