/** What eager loading must produce, said twice over values: BatchViews, one query per edge
    of the query tree and hash lookups (what the loaders do), and NodeView, one query per
    node and edge (the meaning). JoinTheorems shows that they agree. */
module JoinSpec {
  import opened Wrappers
  import opened AccountSchema
  import opened Relational

  datatype ProxyRow = ProxyRow(id: int, address: string)

  datatype GroupRow = GroupRow(id: int, name: string)

  /** A row of groups joined to account_groups: the account it belongs to, and the group. */
  type JoinRow = (int, GroupRow)

  /** memberships holds the account_groups table as (account_id, group_id). joined is how the
      database answers the joined query of a groups edge for some accounts, before its window:
      SQL leaves the arrangement of the answer to the database. */
  datatype Tables = Tables(accounts: seq<Row>, proxies: seq<ProxyRow>, groups: seq<GroupRow>,
                           memberships: seq<(int, int)>, joined: (Own<GroupRow>, seq<int>) -> seq<JoinRow>)

  const ID_KEY: Row -> Option<int> := (r: Row) => Some(r.id)
  const PARENT_KEY: Row -> Option<int> := (r: Row) => r.parentAccountID
  const PROXY_ID_KEY: ProxyRow -> Option<int> := (p: ProxyRow) => Some(p.id)
  const GROUP_ID_KEY: GroupRow -> Option<int> := (g: GroupRow) => Some(g.id)

  /** Primary keys are unique. */
  ghost predicate Keyed(db: Tables)
  {
    && Unique(ID_KEY, db.accounts)
    && Unique(PROXY_ID_KEY, db.proxies)
    && Unique(GROUP_ID_KEY, db.groups)
  }

  /** The rows the joined query selects, group by group in table order. */
  function SelectedJoins(own: Own<GroupRow>, ids: seq<int>, db: Tables): seq<JoinRow>
  {
    JoinRows(Filter(own.preds, db.groups), db.memberships, ids)
  }

  /** A legal answer: exactly the selected rows, in an order its order terms allow. */
  ghost predicate Arranged(own: Own<GroupRow>, ids: seq<int>, db: Tables, rows: seq<JoinRow>)
  {
    && multiset(rows) == multiset(SelectedJoins(own, ids, db))
    && forall i, j :: 0 <= i < j < |rows| ==> AtMost(own.order, rows[i].1, rows[j].1)
  }

  /** What eager loading relies on: unique keys, and joined queries that are answered legally. */
  ghost predicate Lawful(db: Tables)
  {
    Keyed(db) && forall own, ids :: Arranged(own, ids, db, db.joined(own, ids))
  }

  // ----- query trees

  /** joins counts how often a loader has already joined the query to account_groups. */
  datatype GroupPlan = GroupPlan(own: Own<GroupRow>, joins: nat)

  /** The row locks that ForUpdate and ForShare ask for, as modifiers of the query. */
  datatype Lock = UpdateLock | ShareLock

  datatype QTree = QTree(own: Own<Row>, fields: seq<Column>, edges: Edges, locks: seq<Lock>)

  datatype Edges = Edges(groups: Option<GroupPlan>, proxy: Option<Own<ProxyRow>>,
                         parent: Option<QTree>, children: Option<QTree>)

  datatype Loaded = Loaded(groups: bool, proxy: bool, parent: bool, children: bool)

  function LoadedBy(e: Edges): Loaded
  {
    Loaded(e.groups.Some?, e.proxy.Some?, e.parent.Some?, e.children.Some?)
  }

  const ALL_COLUMNS: seq<Column> := [
    ID, CreatedAt, UpdatedAt, DeletedAt, Name, Notes, Platform, Type,
    Credentials, Extra, ProxyID, ProxyFallbackOriginID, Concurrency, LoadFactor, Priority, RateMultiplier,
    Status, ErrorMessage, LastUsedAt, ExpiresAt, AutoPauseOnExpired, Schedulable, RateLimitedAt, RateLimitResetAt,
    OverloadUntil, TempUnschedulableUntil, TempUnschedulableReason, SessionWindowStart, SessionWindowEnd,
    SessionWindowStatus, ParentAccountID, QuotaDimension]

  function AddOnce(cols: seq<Column>, c: Column): seq<Column>
  {
    if c in cols then cols else cols + [c]
  }

  function WithoutID(cols: seq<Column>): (r: seq<Column>)
    ensures forall c :: c in r <==> c in cols && c != ID
  {
    if cols == [] then [] else (if cols[0] == ID then [] else [cols[0]]) + WithoutID(cols[1..])
  }

  /** The columns querySpec selects: the ID first, then the requested fields, then the
      foreign keys that the requested edges need. */
  function SpecColumns(fields: seq<Column>, withProxy: bool, withParent: bool): seq<Column>
  {
    if fields == [] then ALL_COLUMNS
    else
      var cols := [ID] + WithoutID(fields);
      var cols := if withProxy then AddOnce(cols, ProxyID) else cols;
      if withParent then AddOnce(cols, ParentAccountID) else cols
  }

  function ColumnsOf(t: QTree): set<Column>
  {
    ColumnSet(SpecColumns(t.fields, t.edges.proxy.Some?, t.edges.parent.Some?))
  }

  /** loadChildren makes sure the foreign key is selected before it runs the nested query. */
  function ForChildren(t: QTree): QTree
  {
    t.(fields := if t.fields == [] then [] else AddOnce(t.fields, ParentAccountID))
  }

  /** The tree without its locks, nested queries included. */
  function WithoutLocks(t: QTree): QTree
    decreases t
  {
    QTree(t.own, t.fields,
          t.edges.(parent := match t.edges.parent case None => None case Some(p) => Some(WithoutLocks(p)),
                   children := match t.edges.children case None => None case Some(c) => Some(WithoutLocks(c))),
          [])
  }

  predicate Unlocked(t: QTree)
    decreases t
  {
    && t.locks == []
    && (t.edges.parent.Some? ==> Unlocked(t.edges.parent.value))
    && (t.edges.children.Some? ==> Unlocked(t.edges.children.value))
  }

  /** Dropping the locks leaves none, and changes nothing exactly when there are none. */
  lemma {:induction false} UnlockedExactly(t: QTree)
    ensures WithoutLocks(t) == t <==> Unlocked(t)
    ensures Unlocked(WithoutLocks(t))
    decreases t
  {
    if t.edges.parent.Some? {
      UnlockedExactly(t.edges.parent.value);
    }
    if t.edges.children.Some? {
      UnlockedExactly(t.edges.children.value);
    }
  }

  /** Some query of the tree selects a name that is no column. */
  predicate UnknownField(t: QTree)
    decreases t
  {
    || HasUnknown(t.fields)
    || (t.edges.parent.Some? && UnknownField(t.edges.parent.value))
    || (t.edges.children.Some? && UnknownField(t.edges.children.value))
  }

  /** A selected name is no column of the table. */
  predicate HasUnknown(fields: seq<Column>)
  {
    exists i :: 0 <= i < |fields| && fields[i].Other?
  }

  // ----- hash-join vocabulary

  function Keys<T>(key: T -> Option<int>, rows: seq<T>): (ks: seq<Option<int>>)
    ensures |ks| == |rows| && forall i :: 0 <= i < |rows| ==> ks[i] == key(rows[i])
  {
    seq(|rows|, i requires 0 <= i < |rows| => key(rows[i]))
  }

  /** The foreign keys to look up: non-nil, each once, in order of first appearance. */
  function DistinctKeys(ks: seq<Option<int>>): (ids: seq<int>)
    ensures forall id :: id in ids <==> Some(id) in ks
    ensures forall i, j :: 0 <= i < j < |ids| ==> ids[i] != ids[j]
  {
    if ks == [] then []
    else
      var n := |ks| - 1;
      var before := DistinctKeys(ks[..n]);
      assert ks == ks[..n] + [ks[n]];
      if ks[n].None? || ks[n].value in before then before else before + [ks[n].value]
  }

  /** The last position holding a key: where a Go map filled left to right points. */
  function Latest(ks: seq<Option<int>>, k: Option<int>): (p: Option<nat>)
    ensures p.Some? ==> p.value < |ks| && ks[p.value] == k
    ensures p.None? ==> k !in ks
  {
    if ks == [] then None
    else
      var n := |ks| - 1;
      assert ks == ks[..n] + [ks[n]];
      if ks[n] == k then Some(n) else Latest(ks[..n], k)
  }

  /** The elements whose key is id, in order. */
  function Pick<T>(xs: seq<T>, ks: seq<Option<int>>, id: int): seq<T>
    requires |xs| == |ks|
  {
    if xs == [] then []
    else
      var n := |xs| - 1;
      Pick(xs[..n], ks[..n], id) + if ks[n] == Some(id) then [xs[n]] else []
  }

  lemma {:induction false} PickNothing<T>(xs: seq<T>, ks: seq<Option<int>>, id: int)
    requires |xs| == |ks| && Some(id) !in ks
    ensures Pick(xs, ks, id) == []
  {
    if xs != [] {
      var n := |xs| - 1;
      assert ks[n] in ks;
      PickNothing(xs[..n], ks[..n], id);
    }
  }

  function Lookup<T>(xs: seq<T>, ks: seq<Option<int>>, k: Option<int>): Option<T>
    requires |xs| == |ks|
  {
    if k.None? then None
    else match Latest(ks, k) case Some(p) => Some(xs[p]) case None => None
  }

  // ----- many-to-many vocabulary

  predicate Joined(rows: seq<JoinRow>, account: int, group: int)
  {
    exists i :: 0 <= i < |rows| && rows[i].0 == account && rows[i].1.id == group
  }

  predicate HasGroup(gs: seq<GroupRow>, id: int)
  {
    exists k :: 0 <= k < |gs| && gs[k].id == id
  }

  predicate HasJoin(rows: seq<JoinRow>, id: int)
  {
    exists i :: 0 <= i < |rows| && rows[i].1.id == id
  }

  /** The joined groups in order of first appearance, each once. */
  function FirstAppearance(rows: seq<JoinRow>): seq<GroupRow>
  {
    if rows == [] then []
    else
      var n := |rows| - 1;
      var before := FirstAppearance(rows[..n]);
      if HasGroup(before, rows[n].1.id) then before else before + [rows[n].1]
  }

  lemma HasGroupLast(gs: seq<GroupRow>, g: GroupRow, id: int)
    ensures HasGroup(gs + [g], id) <==> HasGroup(gs, id) || g.id == id
  {
    assert (gs + [g])[|gs|] == g;
    if HasGroup(gs, id) {
      var k :| 0 <= k < |gs| && gs[k].id == id;
      assert (gs + [g])[k].id == id;
    }
  }

  lemma HasJoinLast(rows: seq<JoinRow>, id: int)
    requires rows != []
    ensures HasJoin(rows, id) <==> HasJoin(rows[..|rows| - 1], id) || rows[|rows| - 1].1.id == id
  {
    var before := rows[..|rows| - 1];
    if HasJoin(before, id) {
      var i :| 0 <= i < |before| && before[i].1.id == id;
      assert rows[i].1.id == id;
    }
    if HasJoin(rows, id) && rows[|rows| - 1].1.id != id {
      var i :| 0 <= i < |rows| && rows[i].1.id == id;
      assert before[i].1.id == id;
    }
  }

  lemma JoinedMore(rows: seq<JoinRow>, r: JoinRow, account: int, group: int)
    ensures Joined(rows + [r], account, group) <==> Joined(rows, account, group) || (r.0 == account && r.1.id == group)
  {
    assert (rows + [r])[|rows|] == r;
    if i :| 0 <= i < |rows| && rows[i].0 == account && rows[i].1.id == group {
      assert (rows + [r])[i] == rows[i];
    }
    if i :| 0 <= i < |rows + [r]| && (rows + [r])[i].0 == account && (rows + [r])[i].1.id == group && i < |rows| {
      assert rows[i] == (rows + [r])[i];
    }
  }

  lemma {:induction false} AppearanceIDs(rows: seq<JoinRow>, id: int)
    ensures HasGroup(FirstAppearance(rows), id) <==> HasJoin(rows, id)
  {
    if rows != [] {
      var n := |rows| - 1;
      AppearanceIDs(rows[..n], id);
      HasJoinLast(rows, id);
      HasGroupLast(FirstAppearance(rows[..n]), rows[n].1, id);
    }
  }

  /** No group appears twice, however often its join row is repeated. */
  lemma {:induction false} AppearanceUnique(rows: seq<JoinRow>)
    ensures Unique(GROUP_ID_KEY, FirstAppearance(rows))
  {
    if rows != [] {
      var n := |rows| - 1;
      AppearanceUnique(rows[..n]);
    }
  }

  function KeepJoined(gs: seq<GroupRow>, rows: seq<JoinRow>, account: int): seq<GroupRow>
  {
    if gs == [] then []
    else
      var n := |gs| - 1;
      KeepJoined(gs[..n], rows, account) + if Joined(rows, account, gs[n].id) then [gs[n]] else []
  }

  function GroupsOf(rows: seq<JoinRow>, account: int): seq<GroupRow>
  {
    KeepJoined(FirstAppearance(rows), rows, account)
  }

  function Matches(g: GroupRow, memberships: seq<(int, int)>, ids: seq<int>): seq<JoinRow>
  {
    if memberships == [] then []
    else
      var n := |memberships| - 1;
      Matches(g, memberships[..n], ids) +
      if memberships[n].1 == g.id && memberships[n].0 in ids then [(memberships[n].0, g)] else []
  }

  function JoinRows(gs: seq<GroupRow>, memberships: seq<(int, int)>, ids: seq<int>): seq<JoinRow>
  {
    if gs == [] then []
    else
      var n := |gs| - 1;
      JoinRows(gs[..n], memberships, ids) + Matches(gs[n], memberships, ids)
  }

  // ----- the rows each edge fetches for a whole batch of nodes

  function SelectJoin(plan: GroupPlan, ids: seq<int>, db: Tables): seq<JoinRow>
  {
    Window(plan.own, db.joined(plan.own, ids))
  }

  function IDs(rows: seq<Row>): (ids: seq<int>)
    ensures |ids| == |rows| && forall i :: 0 <= i < |rows| ==> ids[i] == rows[i].id
  {
    seq(|rows|, i requires 0 <= i < |rows| => rows[i].id)
  }

  function ProxyKeys(rows: seq<Row>): seq<Option<int>>
  {
    Keys((r: Row) => r.proxyID, rows)
  }

  function GroupBatch(e: Edges, rows: seq<Row>, db: Tables): seq<JoinRow>
  {
    if e.groups.None? then [] else SelectJoin(e.groups.value, IDs(rows), db)
  }

  /** loadProxy and loadParent look the distinct foreign keys up, and ask nothing if there are none. */
  function SelectByKeys<T>(own: Own<T>, key: T -> Option<int>, ks: seq<Option<int>>, table: seq<T>): seq<T>
  {
    var ids := DistinctKeys(ks);
    if ids == [] then [] else Select(own.And(KeyIn(key, ids)), table)
  }

  function ProxyBatch(e: Edges, rows: seq<Row>, db: Tables): seq<ProxyRow>
  {
    if e.proxy.None? then [] else SelectByKeys(e.proxy.value, PROXY_ID_KEY, ProxyKeys(rows), db.proxies)
  }

  function ParentBatch(e: Edges, rows: seq<Row>, db: Tables): seq<Row>
  {
    if e.parent.None? then [] else SelectByKeys(e.parent.value.own, ID_KEY, Keys(PARENT_KEY, rows), db.accounts)
  }

  function SelectChildren(own: Own<Row>, ids: seq<int>, db: Tables): seq<Row>
  {
    Select(own.And(KeyIn(PARENT_KEY, ids)), db.accounts)
  }

  function ChildBatch(e: Edges, rows: seq<Row>, db: Tables): seq<Row>
  {
    if e.children.None? then [] else SelectChildren(e.children.value.own, IDs(rows), db)
  }

  // ----- the object graph

  /** An account with everything reachable from it through its loaded edges. */
  datatype View = View(row: Row, loaded: Loaded, groups: seq<GroupRow>, proxy: Option<ProxyRow>,
                       parent: Option<View>, children: seq<View>)

  function ParentViews(e: Edges, rows: seq<Row>, db: Tables): (vs: seq<View>)
    ensures |vs| == |ParentBatch(e, rows, db)|
    decreases e, 0
  {
    if e.parent.None? then []
    else BatchViews(e.parent.value.edges, ColumnsOf(e.parent.value), ParentBatch(e, rows, db), db)
  }

  function ChildViews(e: Edges, rows: seq<Row>, db: Tables): (vs: seq<View>)
    ensures |vs| == |ChildBatch(e, rows, db)|
    decreases e, 0
  {
    if e.children.None? then []
    else BatchViews(e.children.value.edges, ColumnsOf(ForChildren(e.children.value)), ChildBatch(e, rows, db), db)
  }

  /** The graph of every node of a batch, built with one query per edge. */
  function BatchViews(e: Edges, cols: set<Column>, rows: seq<Row>, db: Tables): (vs: seq<View>)
    ensures |vs| == |rows|
    decreases e, 1
  {
    var groups := GroupBatch(e, rows, db);
    var proxies := ProxyBatch(e, rows, db);
    var parentKeys, parents := Keys(ID_KEY, ParentBatch(e, rows, db)), ParentViews(e, rows, db);
    var childKeys, children := Keys(PARENT_KEY, ChildBatch(e, rows, db)), ChildViews(e, rows, db);
    seq(|rows|, i requires 0 <= i < |rows| =>
      View(Mask(rows[i], cols), LoadedBy(e),
           GroupsOf(groups, rows[i].id),
           Lookup(proxies, Keys(PROXY_ID_KEY, proxies), rows[i].proxyID),
           Lookup(parents, parentKeys, rows[i].parentAccountID),
           Pick(children, childKeys, rows[i].id)))
  }

  /** A graph that a run of this tree could have built: flags as requested, and nothing on an
      edge that was not requested, at every depth. */
  ghost predicate Shaped(v: View, e: Edges)
    decreases e
  {
    && v.loaded == LoadedBy(e)
    && (e.groups.None? ==> v.groups == [])
    && (e.proxy.None? ==> v.proxy == None)
    && (match (v.parent, e.parent) case (None, _) => true case (Some(p), Some(t)) => Shaped(p, t.edges) case _ => false)
    && (e.children.None? ==> v.children == [])
    && (e.children.Some? ==> forall i :: 0 <= i < |v.children| ==> Shaped(v.children[i], e.children.value.edges))
  }

  /** The rows the root query returns. */
  function RootRows(t: QTree, db: Tables): seq<Row>
  {
    Select(t.own, db.accounts)
  }

  function Load(t: QTree, db: Tables): seq<View>
  {
    BatchViews(t.edges, ColumnsOf(t), RootRows(t, db), db)
  }

  // ----- the meaning: one query per node

  /** The groups of one account, as the joined query for this account alone lists them. */
  function NestedGroups(plan: GroupPlan, account: int, db: Tables): seq<GroupRow>
  {
    GroupsOf(SelectJoin(plan, [account], db), account)
  }

  function First<T>(xs: seq<T>): Option<T>
  {
    if xs == [] then None else Some(xs[0])
  }

  /** The graph of one node: each edge asks its own query for this node's rows only. */
  function NodeView(e: Edges, cols: set<Column>, r: Row, db: Tables): View
    decreases e, 0
  {
    View(Mask(r, cols), LoadedBy(e),
         if e.groups.None? then [] else NestedGroups(e.groups.value, r.id, db),
         if e.proxy.None? || r.proxyID.None? then None
         else First(Select(e.proxy.value.And(KeyIn(PROXY_ID_KEY, [r.proxyID.value])), db.proxies)),
         if e.parent.None? || r.parentAccountID.None? then None
         else First(NodeViews(e.parent.value.edges, ColumnsOf(e.parent.value),
                              Select(e.parent.value.own.And(KeyIn(ID_KEY, [r.parentAccountID.value])), db.accounts), db)),
         if e.children.None? then []
         else NodeViews(e.children.value.edges, ColumnsOf(ForChildren(e.children.value)),
                        Select(e.children.value.own.And(KeyIn(PARENT_KEY, [r.id])), db.accounts), db))
  }

  function NodeViews(e: Edges, cols: set<Column>, rows: seq<Row>, db: Tables): (vs: seq<View>)
    ensures |vs| == |rows|
    ensures forall i :: 0 <= i < |rows| ==> vs[i] == NodeView(e, cols, rows[i], db)
    decreases e, 1
  {
    seq(|rows|, i requires 0 <= i < |rows| => NodeView(e, cols, rows[i], db))
  }

  /** No nested query has a limit or an offset (the root may). */
  predicate NoNestedWindow(e: Edges)
  {
    && (e.groups.Some? ==> e.groups.value.own.Unwindowed())
    && (e.proxy.Some? ==> e.proxy.value.Unwindowed())
    && (e.parent.Some? ==> e.parent.value.own.Unwindowed() && NoNestedWindow(e.parent.value.edges))
    && (e.children.Some? ==> e.children.value.own.Unwindowed() && NoNestedWindow(e.children.value.edges))
  }
}
