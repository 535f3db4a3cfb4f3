/** Which stored row each node of a loaded graph stands for, which of its columns the node holds,
    and which rows are on its edges. */
module StoredRows {
  import opened Wrappers
  import opened AccountSchema
  import opened AccountCodec
  import opened Relational
  import opened JoinSpec
  import opened JoinBatches
  import opened JoinGroups
  import opened JoinTheorems
  import opened AccountGraph
  import opened EdgeLoading

  // ----- columns

  /** What a query is run with: loadChildren adds the foreign key. */
  function Run(t: QTree, child: bool): QTree
  {
    if child then ForChildren(t) else t
  }

  /** The columns a caller may count on: all of them when none was selected; else the ID, the
      selected ones, and the foreign keys of the edges. */
  predicate Wanted(c: Column, t: QTree, child: bool)
  {
    if t.fields == [] then !c.Other?
    else
      || c == ID
      || c in t.fields
      || (c == ProxyID && t.edges.proxy.Some?)
      || (c == ParentAccountID && (t.edges.parent.Some? || child))
  }

  /** The node has the stored value of every wanted column and is zero elsewhere; without a
      selection it is the stored row. */
  ghost predicate Agrees(m: Row, r: Row, t: QTree, child: bool)
  {
    && (t.fields == [] ==> m == r)
    && forall c: Column :: if Wanted(c, t, child) then FieldOf(m, c) == FieldOf(r, c) else IsZero(FieldOf(m, c))
  }

  lemma FirstColumns()
    ensures ID in ALL_COLUMNS && CreatedAt in ALL_COLUMNS && UpdatedAt in ALL_COLUMNS && DeletedAt in ALL_COLUMNS
  {
  }

  lemma NamingColumns()
    ensures Name in ALL_COLUMNS && Notes in ALL_COLUMNS && Platform in ALL_COLUMNS && Type in ALL_COLUMNS
  {
  }

  lemma SecondColumns()
    ensures Credentials in ALL_COLUMNS && Extra in ALL_COLUMNS && ProxyID in ALL_COLUMNS && ProxyFallbackOriginID in ALL_COLUMNS
    ensures Concurrency in ALL_COLUMNS && LoadFactor in ALL_COLUMNS && Priority in ALL_COLUMNS && RateMultiplier in ALL_COLUMNS
  {
  }

  lemma ThirdColumns()
    ensures Status in ALL_COLUMNS && ErrorMessage in ALL_COLUMNS && LastUsedAt in ALL_COLUMNS && ExpiresAt in ALL_COLUMNS
    ensures AutoPauseOnExpired in ALL_COLUMNS && Schedulable in ALL_COLUMNS && RateLimitedAt in ALL_COLUMNS && RateLimitResetAt in ALL_COLUMNS
  {
  }

  lemma LastColumns()
    ensures OverloadUntil in ALL_COLUMNS && TempUnschedulableUntil in ALL_COLUMNS && TempUnschedulableReason in ALL_COLUMNS
    ensures SessionWindowStart in ALL_COLUMNS
    ensures SessionWindowEnd in ALL_COLUMNS && SessionWindowStatus in ALL_COLUMNS && ParentAccountID in ALL_COLUMNS && QuotaDimension in ALL_COLUMNS
  {
  }

  lemma NoOtherColumn(name: string)
    ensures Other(name) !in ALL_COLUMNS
  {
  }

  lemma AllColumns(c: Column)
    ensures c in ALL_COLUMNS <==> !c.Other?
  {
    hide ALL_COLUMNS;
    FirstColumns();
    NamingColumns();
    SecondColumns();
    ThirdColumns();
    LastColumns();
    if c.Other? {
      NoOtherColumn(c.name);
    }
  }

  lemma SelectedWanted(t: QTree, child: bool, c: Column)
    requires t.fields != []
    ensures c in ColumnsOf(Run(t, child)) <==> Wanted(c, t, child)
  {
    hide ALL_COLUMNS;
  }

  lemma ColumnsWanted(t: QTree, child: bool, c: Column)
    ensures c in ColumnsOf(Run(t, child)) <==> Wanted(c, t, child)
  {
    if t.fields == [] {
      hide ALL_COLUMNS;
      AllColumns(c);
    } else {
      hide *;
      SelectedWanted(t, child, c);
    }
  }

  lemma MaskedField(r: Row, t: QTree, child: bool, c: Column)
    ensures var f := FieldOf(Mask(r, ColumnsOf(Run(t, child))), c);
            if Wanted(c, t, child) then f == FieldOf(r, c) else IsZero(f)
  {
    hide *;
    ColumnsWanted(t, child, c);
    MaskField(r, ColumnsOf(Run(t, child)), c);
    ZeroFields(c);
  }

  lemma WholeRow(r: Row, t: QTree, child: bool)
    requires t.fields == []
    ensures Mask(r, ColumnsOf(Run(t, child))) == r
  {
    hide Mask, ColumnsOf, Run;
    forall c: Column | !c.Other? ensures c in ColumnsOf(Run(t, child)) {
      ColumnsWanted(t, child, c);
    }
    MaskEverything(r, ColumnsOf(Run(t, child)));
  }

  lemma MaskAgrees(r: Row, t: QTree, child: bool)
    ensures Agrees(Mask(r, ColumnsOf(Run(t, child))), r, t, child)
  {
    hide Mask, ColumnsOf, Run, Wanted, FieldOf, IsZero;
    if t.fields == [] {
      WholeRow(r, t, child);
    }
    forall c: Column
      ensures var f := FieldOf(Mask(r, ColumnsOf(Run(t, child))), c);
              if Wanted(c, t, child) then f == FieldOf(r, c) else IsZero(f)
    {
      MaskedField(r, t, child, c);
    }
  }

  // ----- edges

  ghost predicate IsProxy(p: ProxyRow, r: Row, own: Own<ProxyRow>, db: Tables)
  {
    p in db.proxies && r.proxyID == Some(p.id) && HoldsAll(own.preds, p)
  }

  ghost predicate IsParent(q: Row, r: Row, own: Own<Row>, db: Tables)
  {
    q in db.accounts && r.parentAccountID == Some(q.id) && HoldsAll(own.preds, q)
  }

  ghost predicate IsChild(q: Row, r: Row, own: Own<Row>, db: Tables)
  {
    q in db.accounts && q.parentAccountID == Some(r.id) && HoldsAll(own.preds, q)
  }

  /** Groups the account belongs to, each once; without a window all of them. */
  ghost predicate StoredGroups(gs: seq<GroupRow>, r: Row, plan: Option<GroupPlan>, db: Tables)
  {
    match plan
    case None => gs == []
    case Some(p) =>
      && Unique(GROUP_ID_KEY, gs)
      && (forall g :: g in gs ==> Belongs(p.own, r.id, g, db))
      && (p.own.Unwindowed() ==> forall g :: Belongs(p.own, r.id, g, db) ==> g in gs)
  }

  /** The selected proxy the foreign key leads to; without a window it is there if there is one. */
  ghost predicate StoredProxy(v: Option<ProxyRow>, r: Row, own: Option<Own<ProxyRow>>, db: Tables)
  {
    match own
    case None => v == None
    case Some(o) =>
      match v
      case Some(p) => IsProxy(p, r, o, db)
      case None => o.Unwindowed() ==> forall p :: !IsProxy(p, r, o, db)
  }

  /** At every depth: the node holds the wanted columns of the stored row r, and the nodes on its
      edges stand, in the same way, for stored rows that r's keys lead to and the query of the
      edge selects; without a window for all of them. */
  ghost predicate Stored(v: View, r: Row, t: QTree, child: bool, db: Tables)
    decreases t
  {
    && Agrees(v.row, r, t, child)
    && StoredGroups(v.groups, r, t.edges.groups, db)
    && StoredProxy(v.proxy, r, t.edges.proxy, db)
    && StoredParent(v.parent, r, t.edges.parent, db)
    && StoredChildren(v.children, r, t.edges.children, db)
  }

  ghost predicate StoredParent(v: Option<View>, r: Row, parent: Option<QTree>, db: Tables)
    decreases parent
  {
    match parent
    case None => v == None
    case Some(p) =>
      match v
      case Some(w) => exists q :: IsParent(q, r, p.own, db) && Stored(w, q, p, false, db)
      case None => p.own.Unwindowed() ==> forall q :: !IsParent(q, r, p.own, db)
  }

  ghost predicate StoredChildren(vs: seq<View>, r: Row, children: Option<QTree>, db: Tables)
    decreases children
  {
    match children
    case None => vs == []
    case Some(c) =>
      && (forall k :: 0 <= k < |vs| ==> exists q :: IsChild(q, r, c.own, db) && Stored(vs[k], q, c, true, db))
      && DistinctIDs(vs)
      && (c.own.Unwindowed() ==> forall q :: IsChild(q, r, c.own, db) ==> HasID(vs, q.id))
  }

  ghost predicate DistinctIDs(vs: seq<View>)
  {
    forall i, k :: 0 <= i < k < |vs| ==> vs[i].row.id != vs[k].row.id
  }

  predicate HasID(vs: seq<View>, id: int)
  {
    exists k :: 0 <= k < |vs| && vs[k].row.id == id
  }

  // ----- one edge of a batch

  /** What one query for several keys fetches. */
  lemma FetchedIs<T>(own: Own<T>, key: T -> Option<int>, ids: seq<int>, table: seq<T>, x: T)
    requires x in Select(own.And(KeyIn(key, ids)), table)
    ensures x in table && HoldsAll(own.preds, x) && key(x).Some? && key(x).value in ids
  {
    hide Select;
    SelectSound(own.And(KeyIn(key, ids)), table, x);
    HoldsConcat(own.preds, [KeyIn(key, ids)], x);
    assert Holds([KeyIn(key, ids)][0], x);
  }

  lemma IsFetched<T>(own: Own<T>, key: T -> Option<int>, ids: seq<int>, table: seq<T>, x: T)
    requires own.Unwindowed() && x in table && HoldsAll(own.preds, x) && key(x).Some? && key(x).value in ids
    ensures x in Select(own.And(KeyIn(key, ids)), table)
  {
    HoldsConcat(own.preds, [KeyIn(key, ids)], x);
    var ps := own.preds + [KeyIn(key, ids)];
    FilterMembers(ps, table, x);
    ArrangeMembers(own.order, Filter(ps, table), x);
    var all := Arrange(own.order, Filter(ps, table));
    assert all[0..] == all;
  }

  lemma {:induction false} LookupPlace<T>(xs: seq<T>, ks: seq<Option<int>>, k: Option<int>)
    requires |xs| == |ks|
    ensures match Lookup(xs, ks, k)
            case Some(x) => exists n :: 0 <= n < |xs| && xs[n] == x && ks[n] == k && k.Some?
            case None => k.None? || k !in ks
  {
  }

  lemma KeyIsFetched<T>(own: Own<T>, key: T -> Option<int>, ids: seq<int>, table: seq<T>, x: T)
    requires own.Unwindowed() && x in table && HoldsAll(own.preds, x) && key(x).Some? && key(x).value in ids
    ensures key(x) in Keys(key, Select(own.And(KeyIn(key, ids)), table))
  {
    hide Select;
    IsFetched(own, key, ids, table, x);
    var rows := Select(own.And(KeyIn(key, ids)), table);
    var n :| 0 <= n < |rows| && rows[n] == x;
    assert Keys(key, rows)[n] == key(x);
  }

  lemma ProxyIsStored(e: Edges, rows: seq<Row>, r: Row, db: Tables)
    requires r in rows
    ensures var ps := ProxyBatch(e, rows, db);
            StoredProxy(Lookup(ps, Keys(PROXY_ID_KEY, ps), r.proxyID), r, e.proxy, db)
  {
    hide Select, Lookup, HoldsAll;
    var ps := ProxyBatch(e, rows, db);
    var ks := Keys(PROXY_ID_KEY, ps);
    LookupPlace(ps, ks, r.proxyID);
    if e.proxy.Some? {
      var own, ids := e.proxy.value, DistinctKeys(ProxyKeys(rows));
      var i :| 0 <= i < |rows| && rows[i] == r;
      assert ProxyKeys(rows)[i] == r.proxyID;
      if Lookup(ps, ks, r.proxyID).Some? {
        FetchedIs(own, PROXY_ID_KEY, ids, db.proxies, Lookup(ps, ks, r.proxyID).value);
      } else if own.Unwindowed() {
        forall p ensures !IsProxy(p, r, own, db) {
          if IsProxy(p, r, own, db) {
            KeyIsFetched(own, PROXY_ID_KEY, ids, db.proxies, p);
          }
        }
      }
    }
  }

  lemma GroupsAreStored(e: Edges, rows: seq<Row>, r: Row, db: Tables)
    requires Lawful(db) && r in rows
    ensures StoredGroups(GroupsOf(GroupBatch(e, rows, db), r.id), r, e.groups, db)
  {
    var i :| 0 <= i < |rows| && rows[i] == r;
    assert IDs(rows)[i] == r.id;
    hide GroupsOf, SelectJoin, Belongs, Lawful;
    if e.groups.None? {
      NoRowsNoGroups(r.id);
    } else {
      GroupsFetched(e.groups.value, IDs(rows), r.id, db);
      if e.groups.value.own.Unwindowed() {
        EachGroupOnce(e.groups.value, IDs(rows), r.id, db);
      }
    }
  }

  /** Windowed or not, the joined groups are groups the account belongs to. */
  lemma GroupsFetched(plan: GroupPlan, ids: seq<int>, account: int, db: Tables)
    requires Lawful(db)
    ensures Unique(GROUP_ID_KEY, GroupsOf(SelectJoin(plan, ids, db), account))
    ensures forall g :: g in GroupsOf(SelectJoin(plan, ids, db), account) ==> Belongs(plan.own, account, g, db)
  {
    var all := db.joined(plan.own, ids);
    var rows := SelectJoin(plan, ids, db);
    assert Arranged(plan.own, ids, db, all) && Keyed(db);
    hide Arranged, Lawful, Keyed, GroupsOf, Belongs;
    ArrangedIDs(plan.own, ids, db, all);
    assert forall row :: row in rows ==> row in all;
    assert OneGroupPerID(rows);
    hide SelectJoin, Window;
    forall g | g in GroupsOf(rows, account) ensures Belongs(plan.own, account, g, db) {
      GroupsOfMembers(rows, account, g);
      ArrangedMembers(plan.own, ids, db, all, (account, g));
    }
    UniqueGroups(rows, account);
  }

  lemma UniqueGroups(rows: seq<JoinRow>, account: int)
    ensures Unique(GROUP_ID_KEY, GroupsOf(rows, account))
  {
    hide Unique, FirstAppearance, KeepJoined;
    AppearanceUnique(rows);
    KeepJoinedUnique(FirstAppearance(rows), rows, account);
  }

  // ----- at every depth

  lemma ParentsFetched(e: Edges, rows: seq<Row>, r: Row, n: nat, db: Tables)
    requires e.parent.Some? && n < |ParentBatch(e, rows, db)|
    requires Keys(ID_KEY, ParentBatch(e, rows, db))[n] == r.parentAccountID
    ensures IsParent(ParentBatch(e, rows, db)[n], r, e.parent.value.own, db)
  {
    hide Select, HoldsAll;
    FetchedIs(e.parent.value.own, ID_KEY, DistinctKeys(Keys(PARENT_KEY, rows)), db.accounts, ParentBatch(e, rows, db)[n]);
  }

  lemma AllParentsFetched(e: Edges, rows: seq<Row>, r: Row, db: Tables)
    requires e.parent.Some? && r in rows && e.parent.value.own.Unwindowed()
    requires r.parentAccountID.None? || r.parentAccountID !in Keys(ID_KEY, ParentBatch(e, rows, db))
    ensures forall q :: !IsParent(q, r, e.parent.value.own, db)
  {
    hide Select, HoldsAll;
    var i :| 0 <= i < |rows| && rows[i] == r;
    assert Keys(PARENT_KEY, rows)[i] == r.parentAccountID;
    forall q ensures !IsParent(q, r, e.parent.value.own, db) {
      if IsParent(q, r, e.parent.value.own, db) {
        KeyIsFetched(e.parent.value.own, ID_KEY, DistinctKeys(Keys(PARENT_KEY, rows)), db.accounts, q);
      }
    }
  }

  lemma {:induction false} ParentIsStored(e: Edges, rows: seq<Row>, r: Row, db: Tables)
    requires Lawful(db) && r in rows
    ensures StoredParent(Lookup(ParentViews(e, rows, db), Keys(ID_KEY, ParentBatch(e, rows, db)), r.parentAccountID), r, e.parent, db)
    decreases e, 0
  {
    var batch, views := ParentBatch(e, rows, db), ParentViews(e, rows, db);
    var ks := Keys(ID_KEY, batch);
    ViewsBelow(e, rows, db);
    hide ParentViews, ParentBatch, ColumnsOf, Lookup, Stored, IsParent, Lawful;
    if e.parent.None? {
      NoParent(e, rows, r, db);
    } else {
      var p := e.parent.value;
      LookupPlace(views, ks, r.parentAccountID);
      if Lookup(views, ks, r.parentAccountID).Some? {
        var n :| 0 <= n < |views| && views[n] == Lookup(views, ks, r.parentAccountID).value && ks[n] == r.parentAccountID;
        ParentsFetched(e, rows, r, n, db);
        BatchStored(p, false, batch, n, db);
      } else if p.own.Unwindowed() {
        AllParentsFetched(e, rows, r, db);
      }
    }
  }

  /** The n-th row of a batch and its view, at the same place of the share of one key. */
  lemma {:induction false} PickTogether<T, U>(xs: seq<T>, ys: seq<U>, ks: seq<Option<int>>, id: int, k: nat)
    requires |xs| == |ys| == |ks| && k < |Pick(xs, ks, id)|
    ensures |Pick(ys, ks, id)| == |Pick(xs, ks, id)|
    ensures exists n :: 0 <= n < |xs| && ks[n] == Some(id) && xs[n] == Pick(xs, ks, id)[k] && ys[n] == Pick(ys, ks, id)[k]
    decreases |xs|
  {
    var n := |xs| - 1;
    PickLength(xs[..n], ks[..n], id);
    PickLength(ys[..n], ks[..n], id);
    if k < |Pick(xs[..n], ks[..n], id)| {
      PickTogether(xs[..n], ys[..n], ks[..n], id, k);
      var m :| 0 <= m < n && ks[..n][m] == Some(id) && xs[..n][m] == Pick(xs[..n], ks[..n], id)[k]
               && ys[..n][m] == Pick(ys[..n], ks[..n], id)[k];
      assert ks[m] == Some(id) && xs[m] == Pick(xs, ks, id)[k] && ys[m] == Pick(ys, ks, id)[k];
    }
  }

  lemma ChildrenFetched(e: Edges, rows: seq<Row>, r: Row, n: nat, db: Tables)
    requires e.children.Some? && n < |ChildBatch(e, rows, db)|
    requires Keys(PARENT_KEY, ChildBatch(e, rows, db))[n] == Some(r.id)
    ensures IsChild(ChildBatch(e, rows, db)[n], r, e.children.value.own, db)
  {
    hide Select, HoldsAll;
    FetchedIs(e.children.value.own, PARENT_KEY, IDs(rows), db.accounts, ChildBatch(e, rows, db)[n]);
  }

  lemma {:induction false} ChildIsStored(e: Edges, rows: seq<Row>, r: Row, k: nat, db: Tables)
    requires Lawful(db) && e.children.Some?
    requires k < |Pick(ChildViews(e, rows, db), Keys(PARENT_KEY, ChildBatch(e, rows, db)), r.id)|
    ensures var v := Pick(ChildViews(e, rows, db), Keys(PARENT_KEY, ChildBatch(e, rows, db)), r.id)[k];
            exists q :: IsChild(q, r, e.children.value.own, db) && Stored(v, q, e.children.value, true, db)
    decreases e, 0
  {
    var c := e.children.value;
    var batch, views := ChildBatch(e, rows, db), ChildViews(e, rows, db);
    var ks := Keys(PARENT_KEY, batch);
    ViewsBelow(e, rows, db);
    hide ChildViews, ChildBatch, ColumnsOf, ForChildren, Pick, Stored, IsChild, Lawful;
    PickTogether(views, batch, ks, r.id, k);
    var n :| 0 <= n < |views| && ks[n] == Some(r.id) && views[n] == Pick(views, ks, r.id)[k];
    ChildrenFetched(e, rows, r, n, db);
    StoredChildBatch(c, batch, n, db);
  }

  lemma {:induction false} StoredChildBatch(c: QTree, batch: seq<Row>, n: nat, db: Tables)
    requires Lawful(db) && n < |batch|
    ensures Stored(BatchViews(c.edges, ColumnsOf(ForChildren(c)), batch, db)[n], batch[n], c, true, db)
    decreases c, 2
  {
    hide ColumnsOf, ForChildren, Stored, Lawful, BatchViews;
    BatchStored(c, true, batch, n, db);
  }

  /** The children of one node have the IDs of their stored rows. */
  lemma ShareIDs(e: Edges, rows: seq<Row>, id: int, db: Tables)
    requires e.children.Some?
    ensures SameIDs(Pick(ChildViews(e, rows, db), Keys(PARENT_KEY, ChildBatch(e, rows, db)), id),
                    Pick(ChildBatch(e, rows, db), Keys(PARENT_KEY, ChildBatch(e, rows, db)), id))
  {
    var c := e.children.value;
    ViewsBelow(e, rows, db);
    IDIsSelected(c);
    hide ChildViews, ChildBatch, ColumnsOf, ForChildren, Pick, BatchViews, SameIDs;
    BatchViewsIDs(c.edges, ColumnsOf(ForChildren(c)), ChildBatch(e, rows, db), db);
    PickSameIDs(ChildViews(e, rows, db), ChildBatch(e, rows, db), Keys(PARENT_KEY, ChildBatch(e, rows, db)), id);
  }

  lemma ChildBatchUnique(e: Edges, rows: seq<Row>, db: Tables)
    requires Unique(ID_KEY, db.accounts)
    ensures Unique(ID_KEY, ChildBatch(e, rows, db))
  {
    hide Select;
    if e.children.Some? {
      SelectUnique(ID_KEY, e.children.value.own.And(KeyIn(PARENT_KEY, IDs(rows))), db.accounts);
    }
  }

  lemma UniqueIsDistinct(vs: seq<View>, rows: seq<Row>)
    requires SameIDs(vs, rows) && Unique(ID_KEY, rows)
    ensures DistinctIDs(vs)
  {
    forall i, k | 0 <= i < k < |vs| ensures vs[i].row.id != vs[k].row.id {
      assert ID_KEY(rows[i]) != ID_KEY(rows[k]);
    }
  }

  lemma ChildIsPicked(e: Edges, rows: seq<Row>, r: Row, q: Row, db: Tables)
    requires e.children.Some? && e.children.value.own.Unwindowed() && r in rows && IsChild(q, r, e.children.value.own, db)
    ensures q in Pick(ChildBatch(e, rows, db), Keys(PARENT_KEY, ChildBatch(e, rows, db)), r.id)
  {
    hide Select, HoldsAll, Pick;
    var batch := ChildBatch(e, rows, db);
    var ks := Keys(PARENT_KEY, batch);
    var i :| 0 <= i < |rows| && rows[i] == r;
    assert IDs(rows)[i] == r.id;
    IsFetched(e.children.value.own, PARENT_KEY, IDs(rows), db.accounts, q);
    var n :| 0 <= n < |batch| && batch[n] == q;
    PickPlace(batch, ks, r.id, n);
  }

  /** Children are told apart by their IDs, and without a window all of them are fetched. */
  lemma ChildrenComplete(e: Edges, rows: seq<Row>, r: Row, db: Tables)
    requires Unique(ID_KEY, db.accounts) && e.children.Some? && r in rows
    ensures var vs := Pick(ChildViews(e, rows, db), Keys(PARENT_KEY, ChildBatch(e, rows, db)), r.id);
            && DistinctIDs(vs)
            && (e.children.value.own.Unwindowed() ==> forall q :: IsChild(q, r, e.children.value.own, db) ==> HasID(vs, q.id))
  {
    hide *;
    var batch := ChildBatch(e, rows, db);
    var vs, mine := Pick(ChildViews(e, rows, db), Keys(PARENT_KEY, batch), r.id), Pick(batch, Keys(PARENT_KEY, batch), r.id);
    ShareIDs(e, rows, r.id, db);
    ChildBatchUnique(e, rows, db);
    PickUnique(batch, Keys(PARENT_KEY, batch), r.id);
    UniqueIsDistinct(vs, mine);
    if e.children.value.own.Unwindowed() {
      forall q | IsChild(q, r, e.children.value.own, db) ensures HasID(vs, q.id) {
        ChildIsPicked(e, rows, r, q, db);
        IDIsThere(vs, mine, q);
      }
    }
  }

  lemma IDIsThere(vs: seq<View>, rows: seq<Row>, q: Row)
    requires SameIDs(vs, rows) && q in rows
    ensures HasID(vs, q.id)
  {
    var k :| 0 <= k < |rows| && rows[k] == q;
    assert vs[k].row.id == q.id;
  }

  lemma {:induction false} ChildrenAreStored(e: Edges, rows: seq<Row>, r: Row, db: Tables)
    requires Lawful(db) && r in rows
    ensures StoredChildren(Pick(ChildViews(e, rows, db), Keys(PARENT_KEY, ChildBatch(e, rows, db)), r.id), r, e.children, db)
    decreases e, 1
  {
    hide ChildViews, ChildBatch, Pick, Stored, IsChild, Arranged, DistinctIDs, HasID;
    if e.children.None? {
      NoChildren(e, rows, r, db);
    } else {
      var vs := Pick(ChildViews(e, rows, db), Keys(PARENT_KEY, ChildBatch(e, rows, db)), r.id);
      forall k | 0 <= k < |vs| ensures exists q :: IsChild(q, r, e.children.value.own, db) && Stored(vs[k], q, e.children.value, true, db) {
        ChildIsStored(e, rows, r, k, db);
      }
      ChildrenComplete(e, rows, r, db);
      assert forall k :: 0 <= k < |vs| ==> exists q :: IsChild(q, r, e.children.value.own, db) && Stored(vs[k], q, e.children.value, true, db);
    }
  }

  lemma {:induction false} PickUnique(rows: seq<Row>, ks: seq<Option<int>>, id: int)
    requires |rows| == |ks| && Unique(ID_KEY, rows)
    ensures Unique(ID_KEY, Pick(rows, ks, id))
    decreases |rows|
  {
    if rows != [] {
      var n := |rows| - 1;
      PickUnique(rows[..n], ks[..n], id);
      var before := Pick(rows[..n], ks[..n], id);
      forall i | 0 <= i < |before| ensures ID_KEY(before[i]) != ID_KEY(rows[n]) {
        PickedFrom(rows[..n], ks[..n], id, i);
        var m :| 0 <= m < n && rows[..n][m] == before[i];
        assert ID_KEY(rows[m]) != ID_KEY(rows[n]);
      }
    }
  }

  lemma ViewParts(e: Edges, cols: set<Column>, rows: seq<Row>, n: nat, db: Tables)
    requires n < |rows|
    ensures var v, r := BatchViews(e, cols, rows, db)[n], rows[n];
            && v.row == Mask(r, cols)
            && v.groups == GroupsOf(GroupBatch(e, rows, db), r.id)
            && v.proxy == Lookup(ProxyBatch(e, rows, db), Keys(PROXY_ID_KEY, ProxyBatch(e, rows, db)), r.proxyID)
            && v.parent == Lookup(ParentViews(e, rows, db), Keys(ID_KEY, ParentBatch(e, rows, db)), r.parentAccountID)
            && v.children == Pick(ChildViews(e, rows, db), Keys(PARENT_KEY, ChildBatch(e, rows, db)), r.id)
  {
    hide GroupsOf, Lookup, Pick, ParentViews, ChildViews, ParentBatch, ChildBatch, ProxyBatch, GroupBatch, Mask;
  }

  lemma StoredParts(v: View, r: Row, t: QTree, child: bool, db: Tables)
    requires Agrees(v.row, r, t, child)
    requires StoredGroups(v.groups, r, t.edges.groups, db)
    requires StoredProxy(v.proxy, r, t.edges.proxy, db)
    requires StoredParent(v.parent, r, t.edges.parent, db)
    requires StoredChildren(v.children, r, t.edges.children, db)
    ensures Stored(v, r, t, child, db)
  {
    hide Agrees, StoredGroups, StoredProxy, StoredParent, StoredChildren;
  }

  /** Every node of a batch, at every depth, stands for its stored row: whatever the windows and
      whatever the database answers. */
  lemma {:induction false} BatchStored(t: QTree, child: bool, rows: seq<Row>, n: nat, db: Tables)
    requires Lawful(db) && n < |rows|
    ensures Stored(BatchViews(t.edges, ColumnsOf(Run(t, child)), rows, db)[n], rows[n], t, child, db)
    decreases t, 1
  {
    hide *;
    var e, cols, r := t.edges, ColumnsOf(Run(t, child)), rows[n];
    ViewParts(e, cols, rows, n, db);
    MaskAgrees(r, t, child);
    GroupsAreStored(e, rows, r, db);
    ProxyIsStored(e, rows, r, db);
    ParentIsStored(e, rows, r, db);
    ChildrenAreStored(e, rows, r, db);
    StoredParts(BatchViews(e, cols, rows, db)[n], r, t, child, db);
  }

  // ----- on the objects a run returns

  /** One node per root row, in order; each node, and the objects below it, holds what is stored. */
  ghost predicate HoldRows(nodes: seq<Account>, t: QTree, within: set<Account>, db: Tables)
    reads nodes, within
  {
    && |nodes| == |RootRows(t, db)|
    && forall i :: 0 <= i < |nodes| ==>
         && Unfolds(nodes[i], nodes[i].view, within)
         && Stored(nodes[i].view, RootRows(t, db)[i], t, false, db)
  }

  lemma DeliveredHoldRows(nodes: seq<Account>, t: QTree, within: set<Account>, db: Tables)
    requires Lawful(db) && Delivered(nodes, Load(t, db), within)
    ensures HoldRows(nodes, t, within, db)
  {
    hide Stored, Unfolds, BatchViews, RootRows, ColumnsOf, Lawful;
    assert Run(t, false) == t;
    forall i | 0 <= i < |nodes|
      ensures Unfolds(nodes[i], nodes[i].view, within)
      ensures Stored(nodes[i].view, RootRows(t, db)[i], t, false, db)
    {
      ClosedUnfolds(nodes[i], within);
      BatchStored(t, false, RootRows(t, db), i, db);
    }
  }
}
