/** Loaded entities as heap objects, and the accessors that report what was loaded. */
module AccountGraph {
  import opened Wrappers
  import opened AccountSchema
  import opened AccountCodec
  import opened JoinSpec
  import opened Relational

  class Proxy {
    const row: ProxyRow

    constructor (row: ProxyRow)
      ensures this.row == row
    {
      this.row := row;
    }
  }

  class Group {
    const row: GroupRow

    constructor (row: GroupRow)
      ensures this.row == row
    {
      this.row := row;
    }
  }

  function GroupRows(gs: seq<Group>): (rows: seq<GroupRow>)
    ensures |rows| == |gs| && forall i :: 0 <= i < |gs| ==> rows[i] == gs[i].row
  {
    seq(|gs|, i requires 0 <= i < |gs| => gs[i].row)
  }

  datatype EdgeError = NotLoaded | NotFound

  /** An account node with its Edges. view is the unfolding of the object graph below it. */
  class Account {
    var row: Row
    var selected: map<string, Holder>
    var loaded: Loaded
    var groups: seq<Group>
    var proxy: Proxy?
    var parent: Account?
    var children: seq<Account>
    ghost var view: View

    constructor ()
      ensures row == ZERO_ROW && selected == map[]
      ensures loaded == Loaded(false, false, false, false)
      ensures groups == [] && proxy == null && parent == null && children == []
    {
      row, selected := ZERO_ROW, map[];
      loaded := Loaded(false, false, false, false);
      groups, proxy, parent, children := [], null, null, [];
    }

    /** scanValues: one empty target per column, of the column's type. */
    static method ScanValues(columns: seq<Column>) returns (values: array<Holder>)
      ensures fresh(values) && values.Length == |columns|
      ensures forall i :: 0 <= i < |columns| ==> values[i] == HolderFor(columns[i])
    {
      values := new Holder[|columns|](_ => UnknownType(Null));
      for i := 0 to |columns|
        invariant forall k :: 0 <= k < i ==> values[k] == HolderFor(columns[k])
      {
        values[i] := HolderFor(columns[i]);
      }
    }

    /** assignValues: one column after the other, stopping at the first value that does not fit. */
    method AssignValues(columns: seq<Column>, values: seq<Holder>, j: Json) returns (err: Option<CodecError>)
      modifies this`row, this`selected
      ensures |values| < |columns| ==> err == Some(MismatchedCount) && row == old(row) && selected == old(selected)
      ensures |values| >= |columns| ==> Scanned(row, selected, err) == AssignAll(old(row), old(selected), columns, values, j)
    {
      if |values| < |columns| {
        return Some(MismatchedCount);
      }
      for i := 0 to |columns|
        invariant AssignAll(old(row), old(selected), columns, values, j) ==
                  AssignAll(row, selected, columns[i..], values[i..], j)
      {
        hide AssignColumn;
        assert columns[i..][0] == columns[i] && values[i..][0] == values[i];
        assert columns[i..][1..] == columns[i + 1..] && values[i..][1..] == values[i + 1..];
        match AssignColumn(row, columns[i], values[i], j) {
          case Failure(e) =>
            return Some(e);
          case Success(r) =>
            row := r;
            if columns[i].Other? {
              selected := selected[columns[i].name := values[i]];
            }
        }
      }
      err := None;
    }

    /** view is what the edges of this node show, all of them within the given objects. */
    ghost predicate Settled(within: set<Account>)
      reads this, within
    {
      && view.row == row
      && view.loaded == loaded
      && view.groups == GroupRows(groups)
      && view.proxy == (if proxy == null then None else Some(proxy.row))
      && (parent == null ==> view.parent == None)
      && (parent != null ==> parent in within && view.parent == Some(parent.view))
      && |view.children| == |children|
      && (forall k :: 0 <= k < |children| ==> children[k] in within && view.children[k] == children[k].view)
    }

    function GroupsOrErr(): Result<seq<Group>, EdgeError>
      reads this
    {
      if loaded.groups then Success(groups) else Failure(NotLoaded)
    }

    function ProxyOrErr(): Result<Proxy, EdgeError>
      reads this
    {
      if proxy != null then Success(proxy)
      else if loaded.proxy then Failure(NotFound)
      else Failure(NotLoaded)
    }

    function ParentOrErr(): Result<Account, EdgeError>
      reads this
    {
      if parent != null then Success(parent)
      else if loaded.parent then Failure(NotFound)
      else Failure(NotLoaded)
    }

    function ChildrenOrErr(): Result<seq<Account>, EdgeError>
      reads this
    {
      if loaded.children then Success(children) else Failure(NotLoaded)
    }
  }

  /** A set of nodes closed under their edges, every view up to date. */
  ghost predicate Closed(nodes: set<Account>)
    reads nodes
  {
    forall a :: a in nodes ==> a.Settled(nodes)
  }

  lemma ClosedUnion(s: set<Account>, t: set<Account>)
    requires Closed(s) && Closed(t)
    ensures Closed(s + t)
  {
  }

  /** What can be read off a node and the objects below it, at every depth, is the view. */
  ghost predicate Unfolds(a: Account, v: View, within: set<Account>)
    reads a, within
    decreases v
  {
    && v.row == a.row
    && v.loaded == a.loaded
    && v.groups == GroupRows(a.groups)
    && v.proxy == (if a.proxy == null then None else Some(a.proxy.row))
    && (a.parent == null ==> v.parent == None)
    && (a.parent != null ==> a.parent in within && v.parent.Some? && Unfolds(a.parent, v.parent.value, within))
    && |v.children| == |a.children|
    && (forall k :: 0 <= k < |a.children| ==> a.children[k] in within && Unfolds(a.children[k], v.children[k], within))
  }

  lemma {:induction false} ClosedUnfolds(a: Account, within: set<Account>)
    requires Closed(within) && a in within
    ensures Unfolds(a, a.view, within)
    decreases a.view
  {
    assert a.Settled(within);
    if a.parent != null {
      ClosedUnfolds(a.parent, within);
    }
    forall k | 0 <= k < |a.children| ensures a.children[k] in within && Unfolds(a.children[k], a.view.children[k], within) {
      assert a.view.children[k] == a.children[k].view;
      ClosedUnfolds(a.children[k], within);
    }
  }

  /** The accessors of a node, at any depth of a delivered graph, against the queries of its
      edges: an edge that was not requested is NotLoaded, a requested list is what the node's
      own query returns, and a requested unique edge is the row its key leads to, or NotFound
      when there is none. */
  lemma AccessorsReportQuery(a: Account, within: set<Account>, e: Edges, cols: set<Column>, r: Row, db: Tables)
    requires a.Settled(within) && a.view == NodeView(e, cols, r, db)
    ensures match e.groups
            case None => a.GroupsOrErr() == Failure(NotLoaded)
            case Some(plan) => a.GroupsOrErr().Success? && GroupRows(a.GroupsOrErr().value) == NestedGroups(plan, r.id, db)
    ensures match e.proxy
            case None => a.ProxyOrErr() == Failure(NotLoaded)
            case Some(own) =>
              var row := if r.proxyID.None? then None else First(Select(own.And(KeyIn(PROXY_ID_KEY, [r.proxyID.value])), db.proxies));
              if row.None? then a.ProxyOrErr() == Failure(NotFound)
              else a.ProxyOrErr().Success? && a.ProxyOrErr().value.row == row.value
    ensures match e.parent
            case None => a.ParentOrErr() == Failure(NotLoaded)
            case Some(p) =>
              var row := if r.parentAccountID.None? then None else First(Select(p.own.And(KeyIn(ID_KEY, [r.parentAccountID.value])), db.accounts));
              if row.None? then a.ParentOrErr() == Failure(NotFound)
              else a.ParentOrErr().Success? && a.ParentOrErr().value in within
                   && a.ParentOrErr().value.view == NodeView(p.edges, ColumnsOf(p), row.value, db)
    ensures match e.children
            case None => a.ChildrenOrErr() == Failure(NotLoaded)
            case Some(c) =>
              var rows := Select(c.own.And(KeyIn(PARENT_KEY, [r.id])), db.accounts);
              && a.ChildrenOrErr().Success? && |a.ChildrenOrErr().value| == |rows|
              && forall k :: 0 <= k < |rows| ==>
                   && a.ChildrenOrErr().value[k] in within
                   && a.ChildrenOrErr().value[k].view == NodeView(c.edges, ColumnsOf(ForChildren(c)), rows[k], db)
  {
    hide Select, NestedGroups, ColumnsOf, ForChildren, Mask;
  }

  /** What the accessors of a node, and of every node below it, report: NotLoaded exactly for
      the edges its query did not request, a list for a requested list, and a row or NotFound
      for a requested unique edge. */
  ghost predicate Reports(a: Account, e: Edges, within: set<Account>)
    reads a, within
    decreases e
  {
    && (a.GroupsOrErr() == Failure(NotLoaded) <==> e.groups.None?)
    && (a.ProxyOrErr() == Failure(NotLoaded) <==> e.proxy.None?)
    && (a.ParentOrErr() == Failure(NotLoaded) <==> e.parent.None?)
    && (a.ChildrenOrErr() == Failure(NotLoaded) <==> e.children.None?)
    && (e.groups.Some? ==> a.GroupsOrErr() == Success(a.groups))
    && (e.proxy.Some? ==> a.ProxyOrErr().Success? || a.ProxyOrErr() == Failure(NotFound))
    && (e.parent.Some? ==>
          match a.ParentOrErr()
          case Success(p) => p in within && Reports(p, e.parent.value.edges, within)
          case Failure(err) => err == NotFound)
    && (e.children.Some? ==>
          a.ChildrenOrErr() == Success(a.children)
          && forall k :: 0 <= k < |a.children| ==> a.children[k] in within && Reports(a.children[k], e.children.value.edges, within))
  }

  /** A settled node whose view has the shape of a query tree reports that tree. */
  lemma {:induction false} ShapedReports(a: Account, e: Edges, within: set<Account>)
    requires Closed(within) && a in within && Shaped(a.view, e)
    ensures Reports(a, e, within)
    decreases e
  {
    assert a.Settled(within);
    if e.parent.Some? && a.parent != null {
      ShapedReports(a.parent, e.parent.value.edges, within);
    }
    if e.children.Some? {
      forall k | 0 <= k < |a.children| ensures a.children[k] in within && Reports(a.children[k], e.children.value.edges, within) {
        assert a.children[k].view == a.view.children[k];
        ShapedReports(a.children[k], e.children.value.edges, within);
      }
    }
  }
}
