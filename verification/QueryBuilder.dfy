/** AccountQuery: the builder, its clone, and the run that eager-loads its edges. */
module QueryBuilder {
  import opened Wrappers
  import opened AccountSchema
  import opened AccountCodec
  import opened Relational
  import opened JoinSpec
  import opened JoinTheorems
  import opened AccountGraph
  import opened Loaders
  import opened EdgeLoading
  import opened StoredRows
  import opened Slices

  class QueryContext {
    var fields: Slice<Column>
    var limit: Option<nat>
    var offset: Option<nat>

    constructor (fields: Slice<Column>)
      ensures this.fields == fields && limit == None && offset == None
    {
      this.fields, limit, offset := fields, None, None;
    }

    /** A context of its own, with an array of its own for the fields. */
    method Clone() returns (c: QueryContext)
      requires Backed(fields)
      ensures fresh(c) && fresh(c.fields.data) && Backed(c.fields)
      ensures Elems(c.fields) == Elems(fields) && c.limit == limit && c.offset == offset
    {
      var copied := Copied(fields);
      c := new QueryContext(copied);
      c.limit, c.offset := limit, offset;
    }
  }

  /** A call on the builder; the With calls carry the calls made on the fresh nested query. */
  datatype Op =
    | Where(p: Pred<Row>)
    | Order(term: Row -> int)
    | Limit(n: nat)
    | Offset(n: nat)
    | SelectFields(fields: seq<Column>)
    | LockRows(kind: Lock)
    | WithGroups(groups: Own<GroupRow>)
    | WithProxy(proxy: Own<ProxyRow>)
    | WithParent(ops: seq<Op>)
    | WithChildren(ops: seq<Op>)

  const EMPTY_TREE := QTree(Own([], [], 0, 0), [], Edges(None, None, None, None), [])

  function ApplyOp(t: QTree, op: Op): QTree
    decreases op
  {
    match op
    case Where(p) => t.(own := t.own.And(p))
    case Order(term) => t.(own := t.own.(order := t.own.order + [term]))
    case Limit(n) => t.(own := t.own.(limit := n))
    case Offset(n) => t.(own := t.own.(offset := n))
    case SelectFields(fields) => t.(fields := t.fields + fields)
    case LockRows(kind) => t.(locks := t.locks + [kind])
    case WithGroups(g) => t.(edges := t.edges.(groups := Some(GroupPlan(g, 0))))
    case WithProxy(p) => t.(edges := t.edges.(proxy := Some(p)))
    case WithParent(ops) => t.(edges := t.edges.(parent := Some(ApplyOps(EMPTY_TREE, ops))))
    case WithChildren(ops) => t.(edges := t.edges.(children := Some(ApplyOps(EMPTY_TREE, ops))))
  }

  function ApplyOps(t: QTree, ops: seq<Op>): QTree
    decreases ops
  {
    if ops == [] then t else ApplyOp(ApplyOps(t, ops[..|ops| - 1]), ops[|ops| - 1])
  }

  lemma OpOnSelf(t: QTree, op: Op)
    ensures op.Where? ==> ApplyOp(t, op) == t.(own := t.own.And(op.p))
    ensures op.Order? ==> ApplyOp(t, op) == t.(own := t.own.(order := t.own.order + [op.term]))
    ensures op.Limit? ==> ApplyOp(t, op) == t.(own := t.own.(limit := op.n))
    ensures op.Offset? ==> ApplyOp(t, op) == t.(own := t.own.(offset := op.n))
    ensures op.SelectFields? ==> ApplyOp(t, op) == t.(fields := t.fields + op.fields)
    ensures op.LockRows? ==> ApplyOp(t, op) == t.(locks := t.locks + [op.kind])
  {
  }

  lemma OpOnEdge(t: QTree, op: Op)
    ensures op.WithGroups? ==> ApplyOp(t, op) == t.(edges := t.edges.(groups := Some(GroupPlan(op.groups, 0))))
    ensures op.WithProxy? ==> ApplyOp(t, op) == t.(edges := t.edges.(proxy := Some(op.proxy)))
    ensures op.WithParent? ==> ApplyOp(t, op) == t.(edges := t.edges.(parent := Some(ApplyOps(EMPTY_TREE, op.ops))))
    ensures op.WithChildren? ==> ApplyOp(t, op) == t.(edges := t.edges.(children := Some(ApplyOps(EMPTY_TREE, op.ops))))
  {
  }

  lemma NoOps(t: QTree)
    ensures ApplyOps(t, []) == t
  {
  }

  lemma OneMoreOp(t: QTree, ops: seq<Op>, k: nat)
    requires k < |ops|
    ensures ApplyOps(t, ops[..k + 1]) == ApplyOp(ApplyOps(t, ops[..k]), ops[k])
  {
    assert ops[..k + 1][..k] == ops[..k];
  }

  class AccountQuery {
    var ctx: QueryContext
    var preds: Slice<Pred<Row>>
    var order: Slice<Row -> int>
    var withGroups: GroupQuery?
    var withProxy: ProxyQuery?
    var withParent: AccountQuery?
    var withChildren: AccountQuery?
    var modifiers: seq<Lock>
    ghost var Repr: set<object>

    /** The objects of this builder alone, backing arrays included, without its nested account queries. */
    ghost function Locals(): set<object>
      reads this, ctx
    {
      Buffers() + (if withGroups == null then {} else {withGroups as object}) + (if withProxy == null then {} else {withProxy as object})
    }

    /** The objects that calls on the builder itself write to. */
    ghost function Buffers(): set<object>
      reads this, ctx
    {
      {this, ctx, preds.data, order.data, ctx.fields.data}
    }

    /** The three slices have arrays of their own. */
    ghost predicate Sliced()
      reads this, ctx
    {
      && Backed(preds) && Backed(order) && Backed(ctx.fields)
      && preds.data as object != order.data && preds.data as object != ctx.fields.data && order.data as object != ctx.fields.data
    }

    /** The builder is a tree: nested queries are reached along one path only. */
    ghost predicate Valid()
      reads this, Repr
      decreases Repr
    {
      && this in Repr && ctx in Repr && Locals() <= Repr && Sliced()
      && (withParent != null ==>
            && withParent in Repr && withParent.Repr <= Repr && Locals() !! withParent.Repr
            && withParent.Valid())
      && (withChildren != null ==>
            && withChildren in Repr && withChildren.Repr <= Repr && Locals() !! withChildren.Repr
            && withChildren.Valid())
      && (withParent != null && withChildren != null ==> withParent.Repr !! withChildren.Repr)
    }

    /** The query tree this builder stands for. */
    ghost function Tree(): QTree
      requires Valid()
      reads this, Repr
      decreases Repr
    {
      QTree(OwnPart(), Elems(ctx.fields), EdgePart(), modifiers)
    }

    ghost function OwnPart(): Own<Row>
      requires Backed(preds) && Backed(order)
      reads `ctx, `preds, `order, ctx, preds.data, order.data
    {
      Own(Elems(preds), Elems(order), ctx.limit.GetOr(0), ctx.offset.GetOr(0))
    }

    ghost function EdgePart(): Edges
      requires Valid()
      reads this, Repr
      decreases Repr, 0
    {
      Edges(if withGroups == null then None else Some(GroupPlan(withGroups.own, withGroups.joins)),
            if withProxy == null then None else Some(withProxy.own),
            if withParent == null then None else Some(withParent.Tree()),
            if withChildren == null then None else Some(withChildren.Tree()))
    }

    constructor ()
      ensures Valid() && fresh(Repr) && Tree() == EMPTY_TREE
    {
      var fields: Slice<Column> := Empty();
      var p: Slice<Pred<Row>> := Empty();
      var o: Slice<Row -> int> := Empty();
      var c := new QueryContext(fields);
      ctx, preds, order, modifiers := c, p, o, [];
      withGroups, withProxy, withParent, withChildren := null, null, null, null;
      Repr := {this, c, p.data, o.data, fields.data};
    }

    /** Valid, one level down. */
    ghost predicate Shape()
      reads this, ctx, withParent, withChildren
    {
      && Locals() <= Repr && Sliced()
      && (withParent != null ==> withParent in withParent.Repr && withParent.Repr <= Repr && Locals() !! withParent.Repr)
      && (withChildren != null ==> withChildren in withChildren.Repr && withChildren.Repr <= Repr && Locals() !! withChildren.Repr)
      && (withParent != null && withChildren != null ==> withParent.Repr !! withChildren.Repr)
    }

    ghost predicate SubqueriesValid()
      reads this, withParent, withChildren,
            if withParent == null then {} else withParent.Repr, if withChildren == null then {} else withChildren.Repr
    {
      (withParent != null ==> withParent.Valid()) && (withChildren != null ==> withChildren.Valid())
    }

    /** Tree, one level down. */
    ghost function Assembled(): QTree
      requires SubqueriesValid() && Sliced()
      reads this, ctx, preds.data, order.data, ctx.fields.data, withGroups, withProxy, withParent, withChildren,
            if withParent == null then {} else withParent.Repr, if withChildren == null then {} else withChildren.Repr
    {
      QTree(OwnPart(), Elems(ctx.fields),
            Edges(GroupPart(withGroups), ProxyPart(withProxy), TreePart(withParent), TreePart(withChildren)), modifiers)
    }

    lemma Parts()
      requires Valid()
      ensures Shape() && SubqueriesValid() && Tree() == Assembled()
    {
    }

    lemma Rebuild()
      requires Shape() && SubqueriesValid()
      ensures Valid() && Tree() == Assembled()
    {
    }

    /** What a call on the builder itself starts from; an array is never a builder or a context. */
    lemma FlatParts()
      requires Valid()
      ensures this as object != preds.data && this as object != order.data && this as object != ctx.fields.data
      ensures ctx as object != preds.data && ctx as object != order.data && ctx as object != ctx.fields.data && ctx as object != this
      ensures Sliced() && Backed(preds) && Backed(order) && Backed(ctx.fields) && Buffers() <= Repr
      ensures {this, ctx, preds.data as object, order.data, ctx.fields.data} <= Repr
      ensures Tree().own == OwnPart() == Own(Elems(preds), Elems(order), ctx.limit.GetOr(0), ctx.offset.GetOr(0))
      ensures Tree().fields == Elems(ctx.fields) && Tree().locks == modifiers
      ensures Tree().edges.groups == GroupPart(withGroups) && Tree().edges.proxy == ProxyPart(withProxy)
    {
    }

    /** A call wrote to the builder's own buffers only, or put fresh arrays in their place. */
    twostate predicate OnlyOwn()
      reads this, ctx, Repr
    {
      && (ctx, withGroups, withProxy, withParent, withChildren) == old((ctx, withGroups, withProxy, withParent, withChildren))
      && Repr == old(Repr) + Buffers()
      && unchanged(old(Repr - Buffers()))
      && forall o :: o in Buffers() ==> o in old(Buffers()) || fresh(o)
    }

    twostate lemma NestedKept(q: AccountQuery)
      requires old(Valid()) && OnlyOwn() && (q == withParent || q == withChildren)
      ensures old(q.Valid()) && q.Valid() && q.Repr == old(q.Repr) && q.Repr <= Repr && q.Tree() == old(q.Tree()) && Locals() !! q.Repr
    {
      assert old(q.Valid() && q.Repr <= Repr && Buffers() !! q.Repr);
      assert q.Repr == old(q.Repr) && unchanged(q.Repr);
    }

    /** Such a call leaves the edges of the tree alone. */
    twostate lemma OwnChanged()
      requires old(Valid()) && Sliced() && OnlyOwn()
      ensures Valid() && fresh(Repr - old(Repr)) && Tree() == QTree(OwnPart(), Elems(ctx.fields), old(Tree()).edges, modifiers)
    {
      if withParent != null {
        NestedKept(withParent);
      }
      if withChildren != null {
        NestedKept(withChildren);
      }
      Rebuild();
    }

    /** The same for a call that appends to one slice. */
    twostate lemma PredsChanged()
      requires old(Valid()) && Backed(preds) && (preds.data == old(preds.data) || fresh(preds.data)) && Repr == old(Repr) + {preds.data}
      requires (ctx, order, modifiers, withGroups, withProxy, withParent, withChildren) ==
               old((ctx, order, modifiers, withGroups, withProxy, withParent, withChildren))
      requires unchanged(old(Repr - {this, preds.data}))
      ensures Valid() && fresh(Repr - old(Repr))
      ensures Tree() == old(Tree()).(own := old(Tree()).own.(preds := Elems(preds)))
    {
      assert old(Sliced());
      OwnChanged();
    }

    twostate lemma OrderChanged()
      requires old(Valid()) && Backed(order) && (order.data == old(order.data) || fresh(order.data)) && Repr == old(Repr) + {order.data}
      requires (ctx, preds, modifiers, withGroups, withProxy, withParent, withChildren) ==
               old((ctx, preds, modifiers, withGroups, withProxy, withParent, withChildren))
      requires unchanged(old(Repr - {this, order.data}))
      ensures Valid() && fresh(Repr - old(Repr))
      ensures Tree() == old(Tree()).(own := old(Tree()).own.(order := Elems(order)))
    {
      assert old(Sliced());
      OwnChanged();
    }

    twostate lemma FieldsChanged()
      requires old(Valid()) && Backed(ctx.fields) && (ctx.fields.data == old(ctx.fields.data) || fresh(ctx.fields.data))
      requires Repr == old(Repr) + {ctx.fields.data}
      requires (ctx, preds, order, modifiers, withGroups, withProxy, withParent, withChildren) ==
               old((ctx, preds, order, modifiers, withGroups, withProxy, withParent, withChildren))
      requires (ctx.limit, ctx.offset) == old((ctx.limit, ctx.offset)) && unchanged(old(Repr - {this, ctx, ctx.fields.data}))
      ensures Valid() && fresh(Repr - old(Repr))
      ensures Tree() == old(Tree()).(fields := Elems(ctx.fields))
    {
      assert old(Sliced());
      OwnChanged();
    }

    /** The struct literal that Clone builds. */
    constructor Of(ctx: QueryContext, preds: Slice<Pred<Row>>, order: Slice<Row -> int>, groups: GroupQuery?, proxy: ProxyQuery?,
                   parent: AccountQuery?, children: AccountQuery?)
      requires Backed(preds) && Backed(order) && Backed(ctx.fields)
      requires preds.data as object != order.data && preds.data as object != ctx.fields.data && order.data as object != ctx.fields.data
      requires var mine := {ctx as object, preds.data, order.data, ctx.fields.data, groups, proxy};
               (parent != null ==> parent.Valid() && mine !! parent.Repr) && (children != null ==> children.Valid() && mine !! children.Repr)
      requires parent != null && children != null ==> parent.Repr !! children.Repr
      ensures Valid()
      ensures Repr <= {this, ctx as object, preds.data, order.data, ctx.fields.data, groups, proxy} +
                      (if parent == null then {} else parent.Repr) + (if children == null then {} else children.Repr)
      ensures Tree() ==
              QTree(Own(Elems(preds), Elems(order), ctx.limit.GetOr(0), ctx.offset.GetOr(0)), Elems(ctx.fields),
                    Edges(GroupPart(groups), ProxyPart(proxy), TreePart(parent), TreePart(children)), [])
    {
      this.ctx, this.preds, this.order, modifiers := ctx, preds, order, [];
      withGroups, withProxy, withParent, withChildren := groups, proxy, parent, children;
      Repr := {this, ctx, preds.data, order.data, ctx.fields.data} +
        (if groups == null then {} else {groups as object}) + (if proxy == null then {} else {proxy as object}) +
        (if parent == null then {} else parent.Repr) + (if children == null then {} else children.Repr);
    }

    static lemma AndAppends(own: Own<Row>, p: Pred<Row>)
      ensures own.And(p) == own.(preds := own.preds + [p])
    {
    }

    method Where(p: Pred<Row>)
      requires Valid()
      modifies this, preds.data
      ensures Valid() && fresh(Repr - old(Repr))
      ensures Tree() == old(Tree()).(own := old(Tree()).own.And(p))
    {
      hide *;
      FlatParts();
      AndAppends(Tree().own, p);
      preds := Append(preds, p);
      Repr := Repr + {preds.data};
      PredsChanged();
    }

    method Order(term: Row -> int)
      requires Valid()
      modifies this, order.data
      ensures Valid() && fresh(Repr - old(Repr))
      ensures Tree() == old(Tree()).(own := old(Tree()).own.(order := old(Tree()).own.order + [term]))
    {
      hide *;
      FlatParts();
      order := Append(order, term);
      Repr := Repr + {order.data};
      OrderChanged();
    }

    method Limit(n: nat)
      requires Valid()
      modifies ctx
      ensures Valid() && Repr == old(Repr)
      ensures Tree() == old(Tree()).(own := old(Tree()).own.(limit := n))
    {
      FlatParts();
      hide Valid, Tree, EdgePart, Locals;
      ctx.limit := Some(n);
      OwnChanged();
    }

    method Offset(n: nat)
      requires Valid()
      modifies ctx
      ensures Valid() && Repr == old(Repr)
      ensures Tree() == old(Tree()).(own := old(Tree()).own.(offset := n))
    {
      FlatParts();
      hide Valid, Tree, EdgePart, Locals;
      ctx.offset := Some(n);
      OwnChanged();
    }

    method Select(fields: seq<Column>)
      requires Valid()
      modifies this, ctx, ctx.fields.data
      ensures Valid() && fresh(Repr - old(Repr))
      ensures Tree() == old(Tree()).(fields := old(Tree()).fields + fields)
    {
      hide *;
      FlatParts();
      ctx.fields := AppendAll(ctx.fields, fields);
      Repr := Repr + {ctx.fields.data};
      FieldsChanged();
    }

    /** On Postgres this also turns Unique off, which the tree does not hold. */
    method ForUpdate()
      requires Valid()
      modifies this
      ensures Valid() && Repr == old(Repr)
      ensures Tree() == old(Tree()).(locks := old(Tree()).locks + [UpdateLock])
    {
      FlatParts();
      hide Valid, Tree, EdgePart, Locals;
      modifiers := modifiers + [UpdateLock];
      OwnChanged();
    }

    method ForShare()
      requires Valid()
      modifies this
      ensures Valid() && Repr == old(Repr)
      ensures Tree() == old(Tree()).(locks := old(Tree()).locks + [ShareLock])
    {
      FlatParts();
      hide Valid, Tree, EdgePart, Locals;
      modifiers := modifiers + [ShareLock];
      OwnChanged();
    }

    /** A call replaced one edge: this builder's other fields and every other object are as they were. */
    twostate predicate OnlyEdges()
      reads this, Repr
    {
      && (ctx, preds, order, modifiers) == old((ctx, preds, order, modifiers))
      && old(Repr) <= Repr && unchanged(old(Repr - {this}))
    }

    /** What such a call leaves of the tree. */
    twostate lemma EdgesKept()
      requires old(Valid()) && OnlyEdges()
      ensures Sliced() && OwnPart() == old(Tree().own) && Elems(ctx.fields) == old(Tree().fields) && modifiers == old(Tree().locks)
      ensures withGroups == old(withGroups) ==> GroupPart(withGroups) == old(Tree().edges.groups)
      ensures withProxy == old(withProxy) ==> ProxyPart(withProxy) == old(Tree().edges.proxy)
      ensures withParent == old(withParent) ==> (withParent != null ==> withParent.Valid()) && TreePart(withParent) == old(Tree().edges.parent)
      ensures withChildren == old(withChildren) ==>
                (withChildren != null ==> withChildren.Valid()) && TreePart(withChildren) == old(Tree().edges.children)
    {
    }

    twostate lemma GroupsSet()
      requires old(Valid()) && unchanged(old(Repr - {this}))
      requires (ctx, preds, order, modifiers, withProxy, withParent, withChildren) == old((ctx, preds, order, modifiers, withProxy, withParent, withChildren))
      requires withGroups != null && fresh(withGroups) && Repr == old(Repr) + {withGroups}
      ensures Valid() && Tree() == old(Tree()).(edges := old(Tree()).edges.(groups := GroupPart(withGroups)))
    {
      EdgesKept();
      Rebuild();
      hide Tree, TreePart, GroupPart, ProxyPart, OwnPart, Elems;
    }

    twostate lemma ProxySet()
      requires old(Valid()) && unchanged(old(Repr - {this}))
      requires (ctx, preds, order, modifiers, withGroups, withParent, withChildren) == old((ctx, preds, order, modifiers, withGroups, withParent, withChildren))
      requires withProxy != null && fresh(withProxy) && Repr == old(Repr) + {withProxy}
      ensures Valid() && Tree() == old(Tree()).(edges := old(Tree()).edges.(proxy := ProxyPart(withProxy)))
    {
      EdgesKept();
      Rebuild();
      hide Tree, TreePart, GroupPart, ProxyPart, OwnPart, Elems;
    }

    twostate lemma ParentSet(query: AccountQuery)
      requires old(Valid()) && unchanged(old(Repr - {this}))
      requires (ctx, preds, order, modifiers, withGroups, withProxy, withChildren) == old((ctx, preds, order, modifiers, withGroups, withProxy, withChildren))
      requires old(query.Valid()) && old(Repr !! query.Repr) && query.Valid() && query.Repr == old(query.Repr)
      requires withParent == query && Repr == old(Repr) + query.Repr
      ensures Valid() && Tree() == old(Tree()).(edges := old(Tree()).edges.(parent := Some(query.Tree())))
    {
      EdgesKept();
      Rebuild();
      hide Tree, TreePart, GroupPart, ProxyPart, OwnPart, Elems;
    }

    twostate lemma ChildrenSet(query: AccountQuery)
      requires old(Valid()) && unchanged(old(Repr - {this}))
      requires (ctx, preds, order, modifiers, withGroups, withProxy, withParent) == old((ctx, preds, order, modifiers, withGroups, withProxy, withParent))
      requires old(query.Valid()) && old(Repr !! query.Repr) && query.Valid() && query.Repr == old(query.Repr)
      requires withChildren == query && Repr == old(Repr) + query.Repr
      ensures Valid() && Tree() == old(Tree()).(edges := old(Tree()).edges.(children := Some(query.Tree())))
    {
      EdgesKept();
      Rebuild();
      hide Tree, TreePart, GroupPart, ProxyPart, OwnPart, Elems;
    }

    method WithGroups(own: Own<GroupRow>)
      requires Valid()
      modifies this
      ensures Valid() && fresh(Repr - old(Repr))
      ensures Tree() == old(Tree()).(edges := old(Tree()).edges.(groups := Some(GroupPlan(own, 0))))
    {
      hide Valid, Tree, Sliced, Buffers, Locals, OwnPart, EdgePart;
      withGroups := new GroupQuery(own, 0);
      Repr := Repr + {withGroups};
      GroupsSet();
    }

    method WithProxy(own: Own<ProxyRow>)
      requires Valid()
      modifies this
      ensures Valid() && fresh(Repr - old(Repr))
      ensures Tree() == old(Tree()).(edges := old(Tree()).edges.(proxy := Some(own)))
    {
      hide Valid, Tree, Sliced, Buffers, Locals, OwnPart, EdgePart;
      withProxy := new ProxyQuery(own);
      Repr := Repr + {withProxy};
      ProxySet();
    }

    method InstallParent(query: AccountQuery)
      requires Valid() && query.Valid() && Repr !! query.Repr
      modifies this
      ensures Valid() && Repr == old(Repr) + query.Repr
      ensures Tree() == old(Tree()).(edges := old(Tree()).edges.(parent := Some(old(query.Tree()))))
    {
      hide *;
      ApartFrom(query);
      withParent := query;
      Repr := Repr + query.Repr;
      ParentSet(query);
    }

    method WithParent(ops: seq<Op>)
      requires Valid()
      modifies this
      ensures Valid() && fresh(Repr - old(Repr))
      ensures Tree() == old(Tree()).(edges := old(Tree()).edges.(parent := Some(ApplyOps(EMPTY_TREE, ops))))
      decreases ops, 1
    {
      hide *;
      var query := new AccountQuery();
      query.ApplyAll(ops);
      InstallParent(query);
    }

    method InstallChildren(query: AccountQuery)
      requires Valid() && query.Valid() && Repr !! query.Repr
      modifies this
      ensures Valid() && Repr == old(Repr) + query.Repr
      ensures Tree() == old(Tree()).(edges := old(Tree()).edges.(children := Some(old(query.Tree()))))
    {
      hide *;
      ApartFrom(query);
      withChildren := query;
      Repr := Repr + query.Repr;
      ChildrenSet(query);
    }

    lemma ApartFrom(query: AccountQuery)
      requires Valid() && query.Valid() && Repr !! query.Repr
      ensures this !in query.Repr && query in query.Repr && this != query
    {
    }

    method WithChildren(ops: seq<Op>)
      requires Valid()
      modifies this
      ensures Valid() && fresh(Repr - old(Repr))
      ensures Tree() == old(Tree()).(edges := old(Tree()).edges.(children := Some(ApplyOps(EMPTY_TREE, ops))))
      decreases ops, 1
    {
      hide *;
      var query := new AccountQuery();
      query.ApplyAll(ops);
      InstallChildren(query);
    }

    method Apply(op: Op)
      requires Valid()
      modifies Repr
      ensures Valid() && fresh(Repr - old(Repr))
      ensures Tree() == ApplyOp(old(Tree()), op)
      decreases op, 1
    {
      hide *;
      if op.WithGroups? || op.WithProxy? || op.WithParent? || op.WithChildren? {
        ApplyToEdge(op);
      } else {
        ApplyToSelf(op);
      }
    }

    method ApplyToSelf(op: Op)
      requires Valid() && !op.WithGroups? && !op.WithProxy? && !op.WithParent? && !op.WithChildren?
      modifies Repr
      ensures Valid() && fresh(Repr - old(Repr))
      ensures Tree() == ApplyOp(old(Tree()), op)
    {
      hide *;
      FlatParts();
      OpOnSelf(Tree(), op);
      match op
      case Where(p) => Where(p);
      case Order(term) => Order(term);
      case Limit(n) => Limit(n);
      case Offset(n) => Offset(n);
      case SelectFields(fields) => Select(fields);
      case LockRows(UpdateLock) => ForUpdate();
      case LockRows(ShareLock) => ForShare();
    }

    method ApplyToEdge(op: Op)
      requires Valid() && (op.WithGroups? || op.WithProxy? || op.WithParent? || op.WithChildren?)
      modifies Repr
      ensures Valid() && fresh(Repr - old(Repr))
      ensures Tree() == ApplyOp(old(Tree()), op)
      decreases op, 0
    {
      hide *;
      OwnsItself();
      OpOnEdge(Tree(), op);
      match op
      case WithGroups(g) => WithGroups(g);
      case WithProxy(p) => WithProxy(p);
      case WithParent(ops) => WithParent(ops);
      case WithChildren(ops) => WithChildren(ops);
    }

    method ApplyAll(ops: seq<Op>)
      requires Valid()
      modifies Repr
      ensures Valid() && fresh(Repr - old(Repr))
      ensures Tree() == ApplyOps(old(Tree()), ops)
      decreases ops, 0
    {
      hide *;
      NoOps(Tree());
      for k := 0 to |ops|
        invariant Valid() && fresh(Repr - old(Repr))
        invariant Tree() == ApplyOps(old(Tree()), ops[..k])
      {
        OneMoreOp(old(Tree()), ops, k);
        Apply(ops[k]);
      }
      assert ops[..|ops|] == ops;
    }

    lemma NestedParts()
      requires Valid()
      ensures this in Repr && (withParent != null ==> withParent.Valid() && withParent.Repr < Repr)
      ensures withChildren != null ==> withChildren.Valid() && withChildren.Repr < Repr
      ensures Tree().edges.parent == TreePart(withParent) && Tree().edges.children == TreePart(withChildren)
    {
    }

    method CloneSubqueries() returns (parent: AccountQuery?, children: AccountQuery?)
      requires Valid()
      ensures parent != null ==> parent.Valid() && fresh(parent.Repr)
      ensures children != null ==> children.Valid() && fresh(children.Repr)
      ensures parent != null && children != null ==> parent.Repr !! children.Repr
      ensures TreePart(parent) == FreedPart(Tree().edges.parent) && TreePart(children) == FreedPart(Tree().edges.children)
      decreases Repr, 0
    {
      hide *;
      NestedParts();
      parent := CloneNested(withParent);
      children := CloneNested(withChildren);
    }

    method CloneEdges() returns (groups: GroupQuery?, proxy: ProxyQuery?, parent: AccountQuery?, children: AccountQuery?)
      requires Valid()
      ensures groups != null ==> fresh(groups)
      ensures proxy != null ==> fresh(proxy)
      ensures parent != null ==> parent.Valid() && fresh(parent.Repr) && groups !in parent.Repr && proxy !in parent.Repr
      ensures children != null ==> children.Valid() && fresh(children.Repr) && groups !in children.Repr && proxy !in children.Repr
      ensures parent != null && children != null ==> parent.Repr !! children.Repr
      ensures Edges(GroupPart(groups), ProxyPart(proxy), TreePart(parent), TreePart(children)) == WithoutLocks(Tree()).edges
      decreases Repr, 1
    {
      hide *;
      FlatParts();
      FreedParts(Tree());
      groups := CloneGroups(withGroups);
      proxy := CloneProxy(withProxy);
      parent, children := CloneSubqueries();
    }

    /** A deep copy of the builder, its slices and its whole tree of nested queries. Row locks are
        not carried over at any depth, so the copy equals the original exactly when there are none. */
    method Clone() returns (c: AccountQuery)
      requires Valid()
      ensures c.Valid() && fresh(c.Repr)
      ensures c.Tree() == WithoutLocks(Tree())
      ensures c.Tree() == Tree() <==> Unlocked(Tree())
      decreases Repr, 2
    {
      hide *;
      FlatParts();
      UnlockedExactly(Tree());
      FreedParts(Tree());
      var copied := ctx.Clone();
      var ps := Copied(preds);
      var os := Copied(order);
      var groups, proxy, parent, children := CloneEdges();
      c := new AccountQuery.Of(copied, ps, os, groups, proxy, parent, children);
    }

    /** Clone on a possibly nil receiver. */
    static method CloneNested(q: AccountQuery?) returns (c: AccountQuery?)
      requires q != null ==> q.Valid()
      ensures c != null ==> c.Valid() && fresh(c.Repr)
      ensures TreePart(c) == FreedPart(TreePart(q))
      decreases if q == null then {} else q.Repr, 3
    {
      if q == null {
        return null;
      }
      c := q.Clone();
    }

    static method CloneGroups(q: GroupQuery?) returns (c: GroupQuery?)
      ensures c != null ==> fresh(c)
      ensures GroupPart(c) == GroupPart(q)
    {
      if q == null {
        return null;
      }
      c := new GroupQuery(q.own, q.joins);
    }

    static method CloneProxy(q: ProxyQuery?) returns (c: ProxyQuery?)
      ensures c != null ==> fresh(c)
      ensures ProxyPart(c) == ProxyPart(q)
    {
      if q == null {
        return null;
      }
      c := new ProxyQuery(q.own);
    }

    // ----- running the query

    /** rows.Scan: each value into its target, stopping at the first that does not fit. */
    static method ScanInto(targets: array<Holder>, cols: seq<Column>, cells: Column -> Cell) returns (ok: bool)
      requires targets.Length == |cols| && forall i :: 0 <= i < |cols| ==> targets[i] == HolderFor(cols[i])
      modifies targets
      ensures ScanRow(cols, cells) == if ok then Some(targets[..]) else None
    {
      hide ScanRow, HolderFor, Fill;
      for i := 0 to |cols|
        invariant forall k :: 0 <= k < i ==> Fill(HolderFor(cols[k]), cells(cols[k])) == Some(targets[k])
        invariant forall k :: i <= k < |cols| ==> targets[k] == HolderFor(cols[k])
      {
        match Fill(targets[i], cells(cols[i])) {
          case Some(h) =>
            targets[i] := h;
          case None =>
            ScanStops(cols, cells, i);
            return false;
        }
      }
      ScanFills(cols, cells, targets[..]);
      ok := true;
    }

    /** sqlgraph.QueryNodes: the driver may fail; otherwise every selected row is scanned into
        targets of its own from scanValues. */
    static method QueryNodes(db: Tables, own: Own<Row>, cols: seq<Column>, j: Json)
      returns (r: Result<seq<seq<Holder>>, QueryError>)
      requires Lossless(j)
      ensures r.Failure? ==> r.error == Driver
      ensures r.Success? ==>
                |r.value| == |Relational.Select(own, db.accounts)| &&
                forall i :: 0 <= i < |r.value| ==> ScanRow(cols, Cells(Relational.Select(own, db.accounts)[i], j)) == Some(r.value[i])
    {
      hide *;
      if * {
        return Failure(Driver);
      }
      var rows := Relational.Select(own, db.accounts);
      var scanned: seq<seq<Holder>> := [];
      for i := 0 to |rows|
        invariant |scanned| == i
        invariant forall k :: 0 <= k < i ==> ScanRow(cols, Cells(rows[k], j)) == Some(scanned[k])
      {
        ReadStoredRow(rows[i], cols, j);
        var targets := Account.ScanValues(cols);
        var ok := ScanInto(targets, cols, Cells(rows[i], j));
        scanned := scanned + [targets[..]];
      }
      return Success(scanned);
    }

    /** The Assign hook of sqlAll: a fresh node per row, its edges marked as requested. */
    static method BuildNode(loaded: Loaded, cols: seq<Column>, values: seq<Holder>, ghost row: Row, j: Json) returns (node: Account)
      requires Lossless(j) && ScanRow(cols, Cells(row, j)) == Some(values)
      ensures fresh(node) && BlankNode(node, loaded, ColumnSet(cols), row)
    {
      ReadStoredRow(row, cols, j);
      hide Mask, AssignAll, ScanRow, ColumnSet, Lossless, Cells;
      node := new Account();
      node.loaded := loaded;
      var err := node.AssignValues(cols, values, j);
      assert err == None;
    }

    static method BuildNodes(loaded: Loaded, cols: seq<Column>, scanned: seq<seq<Holder>>, ghost rows: seq<Row>, j: Json)
      returns (nodes: seq<Account>)
      requires Lossless(j)
      requires |scanned| == |rows| && forall i :: 0 <= i < |rows| ==> ScanRow(cols, Cells(rows[i], j)) == Some(scanned[i])
      ensures |nodes| == |rows| && forall i, k :: 0 <= i < k < |nodes| ==> nodes[i] != nodes[k]
      ensures forall i :: 0 <= i < |nodes| ==> fresh(nodes[i]) && BlankNode(nodes[i], loaded, ColumnSet(cols), rows[i])
    {
      hide BlankNode, ScanRow, Cells, Lossless;
      nodes := [];
      for i := 0 to |scanned|
        invariant |nodes| == i
        invariant forall k, m :: 0 <= k < m < |nodes| ==> nodes[k] != nodes[m]
        invariant forall k :: 0 <= k < |nodes| ==> fresh(nodes[k]) && BlankNode(nodes[k], loaded, ColumnSet(cols), rows[k])
      {
        var node := BuildNode(loaded, cols, scanned[i], rows[i], j);
        nodes := nodes + [node];
      }
    }

    /** All: an unknown column stops it before anything is asked. */
    method All(db: Tables, j: Json) returns (r: Result<seq<Account>, QueryError>, ghost within: set<Account>)
      requires Valid() && Ready(Tree(), db, j)
      modifies Repr
      ensures Valid() && fresh(Repr - old(Repr)) && fresh(within) && forall a :: a in within ==> a !in Repr
      ensures HasUnknown(old(Tree()).fields) ==> r.Failure? && r.error.InvalidField? && Tree() == old(Tree())
      ensures r.Failure? ==> Blames(r.error, old(Tree()))
      ensures r.Success? ==> Delivered(r.value, Load(old(Tree()), db), within)
      ensures r.Success? ==> HoldRows(r.value, old(Tree()), within, db)
      ensures r.Success? ==> Tree() == AfterRun(old(Tree()), db)
      decreases Tree().edges, 5
    {
      within := {};
      FlatParts();
      hide Valid, Tree, Ready, Load, AfterRun, Delivered, HoldRows;
      ghost var fields := Elems(ctx.fields);
      for i := 0 to ctx.fields.len
        invariant !HasUnknown(fields[..i])
      {
        var field := ctx.fields.data[i];
        assert fields[i] == field;
        if field.Other? {
          return Failure(InvalidField(field)), {};
        }
      }
      assert fields[..|fields|] == fields;
      r, within := SqlAll(db, j);
    }

    /** One query for the rows, then every requested edge for all the nodes at once. */
    method SqlAll(db: Tables, j: Json) returns (r: Result<seq<Account>, QueryError>, ghost within: set<Account>)
      requires Valid() && Ready(Tree(), db, j)
      modifies Repr
      ensures Valid() && fresh(Repr - old(Repr)) && fresh(within) && forall a :: a in within ==> a !in Repr
      ensures r.Failure? ==> Blames(r.error, old(Tree()))
      ensures r.Success? ==> Delivered(r.value, Load(old(Tree()), db), within)
      ensures r.Success? ==> HoldRows(r.value, old(Tree()), within, db)
      ensures r.Success? ==> Tree() == AfterRun(old(Tree()), db)
      decreases Tree().edges, 4
    {
      hide *;
      within := {};
      ghost var t := Tree();
      QueryParts(t, db, j);
      RunParts(t, db);
      var cols := SpecColumns(Elems(ctx.fields), withProxy != null, withParent != null);
      var own := Own(Elems(preds), Elems(order), ctx.limit.GetOr(0), ctx.offset.GetOr(0));
      var loaded := Loaded(withGroups != null, withProxy != null, withParent != null, withChildren != null);
      var scanned := QueryNodes(db, own, cols, j);
      if scanned.Failure? {
        DriverBlamed(t);
        return Failure(scanned.error), {};
      }
      ghost var rows := RootRows(t, db);
      var nodes := BuildNodes(loaded, cols, scanned.value, rows, j);
      if |nodes| == 0 {
        DeliveredHoldRows(nodes, t, within, db);
        return Success(nodes), within;
      }
      BlankBatch(nodes, t, rows);
      FreshApart(nodes, Repr);
      var err;
      err, within := LoadEdges(db, j, nodes, t, rows);
      if err.Some? {
        return Failure(err.value), within;
      }
      DeliveredHoldRows(nodes, t, within, db);
      r := Success(nodes);
    }

    /** What querySpec and the loaded flags read off the builder. */
    lemma QueryParts(t: QTree, db: Tables, j: Json)
      requires Valid() && t == Tree() && Ready(t, db, j)
      ensures Lawful(db) && Lossless(j)
      ensures Backed(preds) && Backed(order) && Backed(ctx.fields)
      ensures t.own == Own(Elems(preds), Elems(order), ctx.limit.GetOr(0), ctx.offset.GetOr(0))
      ensures ColumnsOf(t) == ColumnSet(SpecColumns(Elems(ctx.fields), withProxy != null, withParent != null))
      ensures LoadedBy(t.edges) == Loaded(withGroups != null, withProxy != null, withParent != null, withChildren != null)
    {
      hide SpecColumns, ColumnSet;
    }

    method LoadEdges(db: Tables, j: Json, nodes: seq<Account>, ghost t: QTree, ghost rows: seq<Row>)
      returns (err: Option<QueryError>, ghost within: set<Account>)
      requires Valid() && t == Tree() && Ready(t, db, j)
      requires RowsRead(nodes, t, rows) && FlatBlank(nodes) && TreeBlank(nodes) && Unique(ID_KEY, rows) && rows != []
      requires Apart(nodes, Repr)
      modifies Repr, nodes
      ensures Valid() && fresh(Repr - old(Repr))
      ensures fresh(within - set a | a in nodes) && forall a :: a in within ==> a !in Repr
      ensures err.Some? ==> Blames(err.value, t)
      ensures err == None ==> Delivered(nodes, BatchViews(t.edges, ColumnsOf(t), rows, db), within)
      ensures err == None ==> Tree() == t.(edges := After(t.edges, rows, db))
      decreases t.edges, 3
    {
      hide *;
      Parts();
      PartsApart(nodes);
      AfterParts(t.edges, rows, db);
      within := {};
      DriverBlamed(t);
      err := LoadFlat(db, j, nodes, t, rows);
      if err == None {
        err, within := LoadTreeEdges(db, j, nodes, t, rows);
      }
      Rebuild();
      if err == None {
        within := Seal(nodes, t, rows, within, db);
      }
    }

    /** The part of a tree after its flat edges ran. */
    static ghost function AfterFlat(t: QTree, rows: seq<Row>): QTree
    {
      t.(edges := t.edges.(groups := AfterGroups(t.edges.groups), proxy := AfterProxy(t.edges.proxy, rows)))
    }

    static ghost function ParentReplaced(t: QTree, parent: Option<QTree>): QTree
    {
      t.(edges := t.edges.(parent := parent))
    }

    static ghost function ChildrenReplaced(t: QTree, children: Option<QTree>): QTree
    {
      t.(edges := t.edges.(children := children))
    }

    lemma TreeParts()
      requires Shape()
      ensures TreeObjects() == (if withParent == null then {} else withParent.Repr) + (if withChildren == null then {} else withChildren.Repr)
      ensures withParent != null ==> this !in withParent.Repr && withParent.Repr <= Repr
      ensures withChildren != null ==> withChildren in withChildren.Repr && this !in withChildren.Repr && withChildren.Repr <= Repr
      ensures withParent != null && withChildren != null ==> withParent.Repr !! withChildren.Repr
    {
    }

    static lemma ReplacedEdges(t: QTree, rows: seq<Row>, parent: Option<QTree>, children: Option<QTree>)
      ensures AfterFlat(t, rows).edges.parent == t.edges.parent
      ensures ParentReplaced(AfterFlat(t, rows), parent).edges.children == t.edges.children
      ensures ChildrenReplaced(ParentReplaced(AfterFlat(t, rows), parent), children) ==
              t.(edges := Edges(AfterGroups(t.edges.groups), AfterProxy(t.edges.proxy, rows), parent, children))
    {
    }

    ghost function FlatObjects(): set<object>
      reads this
    {
      (if withGroups == null then {} else {withGroups as object}) + (if withProxy == null then {} else {withProxy as object})
    }

    ghost function TreeObjects(): set<object>
      reads this, withParent, withChildren
    {
      (if withParent == null then {} else withParent.Repr) + (if withChildren == null then {} else withChildren.Repr)
    }

    lemma PartsApart(nodes: seq<Account>)
      requires Shape() && Apart(nodes, Repr)
      ensures this in Repr && FlatObjects() <= Repr && TreeObjects() <= Repr && this !in FlatObjects() && this !in TreeObjects()
      ensures forall i :: 0 <= i < |nodes| ==> nodes[i] !in FlatObjects() && nodes[i] !in TreeObjects() && nodes[i] !in Repr
    {
    }

    method LoadFlat(db: Tables, ghost j: Json, nodes: seq<Account>, ghost t: QTree, ghost rows: seq<Row>) returns (err: Option<QueryError>)
      requires Shape() && SubqueriesValid() && Assembled() == t && Ready(t, db, j)
      requires RowsRead(nodes, t, rows) && Unique(ID_KEY, rows) && FlatBlank(nodes) && Apart(nodes, Repr)
      modifies FlatObjects(), nodes`groups, nodes`proxy
      ensures Shape() && SubqueriesValid() && TreeObjects() == old(TreeObjects())
      ensures err.Some? ==> err.value.Driver?
      ensures err == None ==> ShownGroups(nodes, t.edges, rows, db) && ShownProxies(nodes, t.edges, rows, db)
      ensures err == None ==> Assembled() == AfterFlat(t, rows)
    {
      hide AccountQuery.Valid, AccountQuery.Tree, Ready, RowsRead, FlatBlank, Unique, AfterGroups, AfterProxy, ShownGroups, ShownProxies;
      ReadyParts(t, db, j);
      err := LoadFlatEdges(withGroups, withProxy, db, nodes, t, rows);
    }

    method LoadTreeEdges(db: Tables, j: Json, nodes: seq<Account>, ghost t: QTree, ghost rows: seq<Row>)
      returns (err: Option<QueryError>, ghost below: set<Account>)
      requires Shape() && SubqueriesValid() && Assembled() == AfterFlat(t, rows) && Ready(t, db, j)
      requires RowsRead(nodes, t, rows) && TreeBlank(nodes) && Unique(ID_KEY, rows) && Apart(nodes, Repr)
      modifies this`Repr, TreeObjects(), nodes`parent, nodes`children
      ensures fresh(below) && fresh(Repr - old(Repr)) && forall a :: a in below ==> a !in Repr
      ensures Shape() && SubqueriesValid()
      ensures err.Some? ==> Blames(err.value, t)
      ensures err == None ==> ShownParents(nodes, t.edges, rows, below, db) && ShownChildren(nodes, t.edges, rows, below, db)
      ensures err == None ==>
                Assembled() == t.(edges := Edges(AfterGroups(t.edges.groups), AfterProxy(t.edges.proxy, rows),
                                                 AfterParent(t.edges.parent, rows, db), AfterChildren(t.edges.children, rows, db)))
      decreases t.edges, 2
    {
      hide *;
      RowsReadLength(nodes, t, rows);
      ReplacedEdges(t, rows, AfterParent(t.edges.parent, rows, db), AfterChildren(t.edges.children, rows, db));
      BlankChildren(nodes, Repr);
      TreeParts();
      err, below := RunParent(db, j, nodes, t, rows);
      if err == None {
        FreshApart(nodes, Repr);
        ghost var more;
        err, more := RunChildren(db, j, nodes, t, rows);
        if err == None {
          ShownTogether(nodes, t.edges, rows, below, more, db);
        }
        below := below + more;
      }
    }

    lemma OwnsItself()
      requires Valid()
      ensures this in Repr
    {
    }

    /** Where the builder's own objects, its nested queries and the nodes of a batch are. */
    lemma Layout(nodes: seq<Account>)
      requires Shape() && SubqueriesValid() && Apart(nodes, Repr)
      ensures {this, ctx, preds.data as object, order.data, ctx.fields.data} <= Repr
      ensures (withGroups != null ==> withGroups in Repr) && (withProxy != null ==> withProxy in Repr)
      ensures Sliced() && this in Locals() && Locals() <= Repr && forall i :: 0 <= i < |nodes| ==> nodes[i] !in Repr
      ensures withParent != null ==> withParent.Valid() && withParent.Repr <= Repr && Locals() !! withParent.Repr
      ensures withChildren != null ==> withChildren.Valid() && withChildren.Repr <= Repr && Locals() !! withChildren.Repr
      ensures withParent != null && withChildren != null ==>
                withParent.Repr !! withChildren.Repr && withParent in withParent.Repr && withChildren in withChildren.Repr
      ensures Assembled().edges.parent == TreePart(withParent) && Assembled().edges.children == TreePart(withChildren)
    {
    }

    /** A nested query ran and may own new arrays: the other one, and the builder's own objects and
        fields, are as they were. */
    twostate predicate OnlyNested(q: AccountQuery)
      reads this, Repr, q
    {
      && (ctx, preds, order, modifiers, withGroups, withProxy, withParent, withChildren) ==
         old((ctx, preds, order, modifiers, withGroups, withProxy, withParent, withChildren))
      && Repr == old(Repr) + q.Repr && fresh(q.Repr - old(q.Repr)) && (q == withParent || q == withChildren)
      && old(Locals() <= Repr) && unchanged(old(Locals() - {this}))
      && (withParent != null && withParent != q ==> old(withParent.Repr <= Repr) && unchanged(old(withParent.Repr)))
      && (withChildren != null && withChildren != q ==> old(withChildren.Repr <= Repr) && unchanged(old(withChildren.Repr)))
    }

    twostate lemma OwnKept(q: AccountQuery)
      requires old(Shape()) && OnlyNested(q)
      ensures Sliced() && Locals() == old(Locals()) && OwnPart() == old(OwnPart()) && Elems(ctx.fields) == old(Elems(ctx.fields))
      ensures GroupPart(withGroups) == old(GroupPart(withGroups)) && ProxyPart(withProxy) == old(ProxyPart(withProxy))
    {
    }

    twostate lemma SiblingKept(q: AccountQuery)
      requires old(Shape() && SubqueriesValid()) && OnlyNested(q)
      ensures withParent != null && withParent != q ==>
                withParent.Valid() && withParent.Repr == old(withParent.Repr) && withParent.Tree() == old(withParent.Tree())
      ensures withChildren != null && withChildren != q ==>
                withChildren.Valid() && withChildren.Repr == old(withChildren.Repr) && withChildren.Tree() == old(withChildren.Tree())
    {
      assert withParent != null ==> withParent in old(withParent.Repr);
      assert withChildren != null ==> withChildren in old(withChildren.Repr);
      hide Valid, Tree, Sliced, Locals;
    }

    twostate lemma ReranShape(q: AccountQuery)
      requires old(Shape() && SubqueriesValid()) && OnlyNested(q) && q.Valid()
      ensures Shape() && SubqueriesValid() && fresh(Repr - old(Repr))
    {
      OwnKept(q);
      q.OwnsItself();
      SiblingKept(q);
      hide Valid, Tree, OwnPart, Elems, Sliced, Locals, GroupPart, ProxyPart;
    }

    /** The tree after a nested query ran. */
    twostate lemma Reran(q: AccountQuery)
      requires old(Shape() && SubqueriesValid()) && OnlyNested(q) && q.Valid()
      ensures Shape() && SubqueriesValid() && fresh(Repr - old(Repr))
      ensures Assembled() ==
              if q == withParent then ParentReplaced(old(Assembled()), Some(q.Tree())) else ChildrenReplaced(old(Assembled()), Some(q.Tree()))
    {
      ReranShape(q);
      OwnKept(q);
      SiblingKept(q);
      hide Valid, Tree, OwnPart, Elems, Sliced, Locals, GroupPart, ProxyPart, Shape;
    }

    static lemma NothingReplaced(t: QTree)
      ensures t.edges.parent == None ==> ParentReplaced(t, None) == t
      ensures t.edges.children == None ==> ChildrenReplaced(t, None) == t
    {
    }

    static method LoadParentEdge(query: AccountQuery?, db: Tables, j: Json, nodes: seq<Account>, ghost t: QTree, ghost rows: seq<Row>)
      returns (err: Option<QueryError>, ghost within: set<Account>)
      requires (query != null ==> query.Valid()) && TreePart(query) == t.edges.parent && Ready(t, db, j)
      requires RowsRead(nodes, t, rows) && forall i :: 0 <= i < |nodes| ==> nodes[i].parent == null
      requires query != null ==> Apart(nodes, query.Repr)
      modifies if query == null then {} else query.Repr, nodes`parent
      ensures fresh(within)
      ensures query != null ==> query.Valid() && fresh(query.Repr - old(query.Repr)) && forall a :: a in within ==> a !in query.Repr
      ensures err.Some? ==> Blames(err.value, t)
      ensures err == None ==> ShownParents(nodes, t.edges, rows, within, db)
      ensures err == None ==> TreePart(query) == AfterParent(t.edges.parent, rows, db)
      decreases t.edges, 0
    {
      hide AccountQuery.Valid, AccountQuery.Tree, SelectByKeys, Lookup, Shows, BatchViews, AfterLookup, Ready, Mask, ColumnsOf;
      KeysOfRows(nodes, t, rows);
      ReadyParts(t, db, j);
      BlamedBelow(t);
      within := {};
      if query == null {
        NoParentShown(nodes, t.edges, rows, db);
        return None, {};
      }
      ghost var was := seq(|nodes|, i requires 0 <= i < |nodes| => null as Account?);
      err, within := LoadParent(query, db, j, nodes, was, NodeKeys(nodes, PARENT_KEY));
    }

    static method LoadChildrenEdge(query: AccountQuery?, db: Tables, j: Json, nodes: seq<Account>, ghost t: QTree, ghost rows: seq<Row>)
      returns (err: Option<QueryError>, ghost within: set<Account>)
      requires (query != null ==> query.Valid()) && TreePart(query) == t.edges.children && Ready(t, db, j)
      requires RowsRead(nodes, t, rows) && Unique(ID_KEY, rows) && forall i :: 0 <= i < |nodes| ==> nodes[i].children == []
      requires query != null ==> Apart(nodes, query.Repr)
      modifies if query == null then {} else query.Repr, nodes`children
      ensures fresh(within)
      ensures query != null ==> query.Valid() && fresh(query.Repr - old(query.Repr)) && forall a :: a in within ==> a !in query.Repr
      ensures err.Some? ==> Blames(err.value, t)
      ensures err == None ==> ShownChildren(nodes, t.edges, rows, within, db)
      ensures err == None ==> TreePart(query) == AfterChildren(t.edges.children, rows, db)
      decreases t.edges, 0
    {
      hide AccountQuery.Valid, AccountQuery.Tree, SelectChildren, Pick, Lists, BatchViews, AfterFetch, Ready, Owns, Unique, Mask, ColumnsOf;
      KeysOfRows(nodes, t, rows);
      ReadyParts(t, db, j);
      BlamedBelow(t);
      within := {};
      if query == null {
        NoChildrenShown(nodes, t.edges, rows, db);
        return None, {};
      }
      err, within := LoadChildren(query, db, j, nodes, NodeIDs(nodes));
      forall i | 0 <= i < |nodes| {
        OwnedByUnique(nodes, rows, i);
      }
    }

    method RunParent(db: Tables, j: Json, nodes: seq<Account>, ghost t: QTree, ghost rows: seq<Row>)
      returns (err: Option<QueryError>, ghost within: set<Account>)
      requires Shape() && SubqueriesValid() && Assembled().edges.parent == t.edges.parent && Ready(t, db, j)
      requires RowsRead(nodes, t, rows) && TreeBlank(nodes) && Apart(nodes, Repr)
      modifies this`Repr, if withParent == null then {} else withParent.Repr, nodes`parent
      ensures fresh(within) && fresh(Repr - old(Repr)) && Shape() && SubqueriesValid()
      ensures forall a :: a in within ==> a !in Repr
      ensures err.Some? ==> Blames(err.value, t)
      ensures err == None ==> ShownParents(nodes, t.edges, rows, within, db)
      ensures err == None ==> Assembled() == ParentReplaced(old(Assembled()), AfterParent(t.edges.parent, rows, db))
      decreases t.edges, 1
    {
      hide AccountQuery.Valid, AccountQuery.Tree, Shape, SubqueriesValid, Assembled, Sliced, Locals, TreePart, Ready, RowsRead, TreeBlank, Apart,
           Unique, ShownParents, AfterParent, Blames, ParentReplaced;
      Layout(nodes);
      AfterNone(rows, db);
      BlankParents(nodes);
      NothingReplaced(Assembled());
      NestedPart(withParent);
      if withParent == null {
        err, within := LoadParentEdge(null, db, j, nodes, t, rows);
      } else {
        FreshApart(nodes, withParent.Repr);
        err, within := LoadParentEdge(withParent, db, j, nodes, t, rows);
        Repr := Repr + withParent.Repr;
        Reran(withParent);
        NestedPart(withParent);
      }
    }

    method RunChildren(db: Tables, j: Json, nodes: seq<Account>, ghost t: QTree, ghost rows: seq<Row>)
      returns (err: Option<QueryError>, ghost within: set<Account>)
      requires Shape() && SubqueriesValid() && Assembled().edges.children == t.edges.children && Ready(t, db, j)
      requires RowsRead(nodes, t, rows) && Unique(ID_KEY, rows) && Apart(nodes, Repr)
      requires forall i :: 0 <= i < |nodes| ==> nodes[i].children == []
      modifies this`Repr, if withChildren == null then {} else withChildren.Repr, nodes`children
      ensures fresh(within) && fresh(Repr - old(Repr)) && Shape() && SubqueriesValid()
      ensures forall a :: a in within ==> a !in Repr
      ensures err.Some? ==> Blames(err.value, t)
      ensures err == None ==> ShownChildren(nodes, t.edges, rows, within, db)
      ensures err == None ==> Assembled() == ChildrenReplaced(old(Assembled()), AfterChildren(t.edges.children, rows, db))
      decreases t.edges, 1
    {
      hide AccountQuery.Valid, AccountQuery.Tree, Shape, SubqueriesValid, Assembled, Sliced, Locals, TreePart, Ready, RowsRead, TreeBlank, Apart,
           Unique, ShownChildren, AfterChildren, Blames, ChildrenReplaced;
      Layout(nodes);
      AfterNone(rows, db);
      NothingReplaced(Assembled());
      NestedPart(withChildren);
      if withChildren == null {
        err, within := LoadChildrenEdge(null, db, j, nodes, t, rows);
      } else {
        FreshApart(nodes, withChildren.Repr);
        err, within := LoadChildrenEdge(withChildren, db, j, nodes, t, rows);
        Repr := Repr + withChildren.Repr;
        Reran(withChildren);
        NestedPart(withChildren);
      }
    }

    /** The nested query of loadParent: the distinct keys, one predicate, one run. */
    static method FetchParents(query: AccountQuery, db: Tables, j: Json, ids: seq<int>, ghost ks: seq<Option<int>>)
      returns (r: Result<seq<Account>, QueryError>, ghost within: set<Account>)
      requires query.Valid() && Ready(query.Tree(), db, j)
      requires ids == DistinctKeys(ks) && ids != []
      modifies query.Repr
      ensures query.Valid() && fresh(query.Repr - old(query.Repr)) && fresh(within) && forall a :: a in within ==> a !in query.Repr
      ensures r.Failure? ==> Blames(r.error, old(query.Tree()))
      ensures r.Success? ==> Delivered(r.value, ParentsFor(old(query.Tree()), ks, db), within)
      ensures r.Success? ==> query.Tree() == AfterLookup(old(query.Tree()), ks, db)
      decreases query.Tree().edges, 6
    {
      hide *;
      ghost var t := query.Tree();
      ParentsRun(t, ids, ks, db, j);
      query.FlatParts();
      query.Where(KeyIn(ID_KEY, ids));
      r, within := query.All(db, j);
    }

    /** loadParent: a left outer join for any node list. One query fetches each distinct
        non-nil foreign key once; a node whose parent row is returned points to that row's
        node, every other node is unchanged. Its own errors cannot occur. */
    static method LoadParent(query: AccountQuery, db: Tables, j: Json, nodes: seq<Account>, ghost was: seq<Account?>,
                             ks: seq<Option<int>>)
      returns (err: Option<QueryError>, ghost within: set<Account>)
      requires query.Valid() && Ready(query.Tree(), db, j)
      requires |ks| == |was| == |nodes|
      requires forall i :: 0 <= i < |nodes| ==> ks[i] == nodes[i].row.parentAccountID && was[i] == nodes[i].parent && nodes[i] !in query.Repr
      modifies query.Repr, nodes`parent
      ensures query.Valid() && fresh(query.Repr - old(query.Repr)) && fresh(within) && forall a :: a in within ==> a !in query.Repr
      ensures err.Some? ==> Blames(err.value, old(query.Tree()))
      ensures DistinctKeys(ks) == [] ==> err == None && query.Tree() == old(query.Tree())
      ensures err == None ==> ParentsShown(nodes, was, old(query.Tree()), ks, within, db)
      ensures err == None ==> query.Tree() == AfterLookup(old(query.Tree()), ks, db)
      decreases query.Tree().edges, 7
    {
      hide *;
      within := {};
      var ids, nodeids := CollectKeys(nodes, ks);
      ghost var t := query.Tree();
      if ids == [] {
        LeftAlone(nodes, was, t, ks, db);
        return None, {};
      }
      var res;
      res, within := FetchParents(query, db, j, ids, ks);
      if res.Failure? {
        return Some(res.error), within;
      }
      err := AttachFetchedParents(nodes, was, ks, nodeids, res.value, t, within, db);
    }

    // ----- children

    /** AppendFieldOnce: when fields are selected, the foreign key must be among them. */
    method SelectForeignKey()
      requires Valid()
      modifies this, ctx, ctx.fields.data
      ensures Valid() && fresh(Repr - old(Repr))
      ensures Tree() == ForChildren(old(Tree()))
    {
      FlatParts();
      if ctx.fields.len > 0 && ParentAccountID !in Elems(ctx.fields) {
        Select([ParentAccountID]);
      }
    }

    static method FetchChildren(query: AccountQuery, db: Tables, j: Json, ids: seq<int>)
      returns (r: Result<seq<Account>, QueryError>, ghost within: set<Account>)
      requires query.Valid() && Ready(query.Tree(), db, j)
      modifies query.Repr
      ensures query.Valid() && fresh(query.Repr - old(query.Repr)) && fresh(within) && forall a :: a in within ==> a !in query.Repr
      ensures r.Failure? ==> Blames(r.error, old(query.Tree()))
      ensures r.Success? ==> Delivered(r.value, ChildrenFor(old(query.Tree()), ids, db), within)
      ensures r.Success? ==> query.Tree() == AfterFetch(old(query.Tree()), ids, db)
      decreases query.Tree().edges, 6
    {
      hide *;
      ghost var t := query.Tree();
      ChildrenRun(t, ids, db, j);
      query.FlatParts();
      query.SelectForeignKey();
      query.FlatParts();
      query.Where(KeyIn(PARENT_KEY, ids));
      r, within := query.All(db, j);
    }

    /** loadChildren, for any node list: one query by foreign key; every node that is the last
        with its ID lists exactly the fetched children of that ID, in order, and a node whose
        ID is repeated later lists none. Its own errors cannot occur. */
    static method LoadChildren(query: AccountQuery, db: Tables, j: Json, nodes: seq<Account>, ids: seq<int>)
      returns (err: Option<QueryError>, ghost within: set<Account>)
      requires query.Valid() && Ready(query.Tree(), db, j)
      requires |ids| == |nodes|
      requires forall i :: 0 <= i < |nodes| ==> ids[i] == nodes[i].row.id && nodes[i] !in query.Repr
      modifies query.Repr, nodes`children
      ensures query.Valid() && fresh(query.Repr - old(query.Repr)) && fresh(within) && forall a :: a in within ==> a !in query.Repr
      ensures err.Some? ==> Blames(err.value, old(query.Tree()))
      ensures err == None ==> ChildrenShown(nodes, ids, old(query.Tree()), within, db)
      ensures err == None ==> query.Tree() == AfterFetch(old(query.Tree()), ids, db)
      decreases query.Tree().edges, 7
    {
      hide *;
      within := {};
      ghost var t := query.Tree();
      var nodeids := IndexByID(nodes, Wrapped(ids));
      InitChildren(nodes);
      var res;
      res, within := FetchChildren(query, db, j, ids);
      if res.Failure? {
        return Some(res.error), within;
      }
      err := AttachFetchedChildren(nodes, ids, nodeids, res.value, t, within, db);
    }
  }

  /** A run fails because the driver did, or because some query of its tree selects no column. */
  predicate Blames(err: QueryError, t: QTree)
  {
    err.Driver? || (err.InvalidField? && UnknownField(t))
  }

  lemma DriverBlamed(t: QTree)
    ensures forall err: QueryError :: err.Driver? ==> Blames(err, t)
  {
  }

  /** What a nested query is blamed for, the whole tree is. */
  lemma BlamedBelow(t: QTree)
    ensures t.edges.parent.Some? ==> forall err :: Blames(err, t.edges.parent.value) ==> Blames(err, t)
    ensures t.edges.children.Some? ==> forall err :: Blames(err, t.edges.children.value) ==> Blames(err, t)
  {
  }

  /** The foreign key that loadChildren adds is not to blame. */
  lemma KeyNotBlamed(t: QTree, err: QueryError)
    ensures Blames(err, ForChildren(t)) ==> Blames(err, t)
  {
    if HasUnknown(ForChildren(t).fields) {
      var i :| 0 <= i < |ForChildren(t).fields| && ForChildren(t).fields[i].Other?;
      assert t.fields[i].Other?;
    }
  }

  /** What the nested run of loadParent delivers, in terms of the query before it was narrowed. */
  lemma ParentsRun(t: QTree, ids: seq<int>, ks: seq<Option<int>>, db: Tables, j: Json)
    requires Ready(t, db, j) && ids == DistinctKeys(ks) && ids != []
    ensures var narrowed := t.(own := t.own.And(KeyIn(ID_KEY, ids)));
            && Ready(narrowed, db, j) && narrowed.edges == t.edges
            && Load(narrowed, db) == ParentsFor(t, ks, db) && AfterRun(narrowed, db) == AfterLookup(t, ks, db)
            && forall err :: Blames(err, narrowed) ==> Blames(err, t)
  {
    hide BatchViews, Select, DistinctKeys, Lawful, SpecColumns, ColumnSet;
    var narrowed := t.(own := t.own.And(KeyIn(ID_KEY, ids)));
    assert ColumnsOf(narrowed) == ColumnsOf(t);
    assert RootRows(narrowed, db) == SelectByKeys(t.own, ID_KEY, ks, db.accounts);
  }

  lemma ChildrenRun(t: QTree, ids: seq<int>, db: Tables, j: Json)
    requires Ready(t, db, j)
    ensures var keyed := ForChildren(t);
            var narrowed := keyed.(own := keyed.own.And(KeyIn(PARENT_KEY, ids)));
            && Ready(narrowed, db, j) && narrowed.edges == t.edges
            && Load(narrowed, db) == ChildrenFor(t, ids, db) && AfterRun(narrowed, db) == AfterFetch(t, ids, db)
            && forall err :: Blames(err, narrowed) ==> Blames(err, t)
  {
    forall err: QueryError {
      KeyNotBlamed(t, err);
    }
    hide BatchViews, Select, Lawful, SpecColumns, ColumnSet, AddOnce;
  }

  /** What a run assumes: unique IDs, lossless JSON, no groups query joined before. */
  ghost predicate Ready(t: QTree, db: Tables, j: Json)
  {
    Lawful(db) && Lossless(j) && Unjoined(t.edges)
  }

  lemma BlankBatch(nodes: seq<Account>, t: QTree, rows: seq<Row>)
    requires |nodes| == |rows| && forall i, k :: 0 <= i < k < |nodes| ==> nodes[i] != nodes[k]
    requires forall i :: 0 <= i < |nodes| ==> BlankNode(nodes[i], LoadedBy(t.edges), ColumnsOf(t), rows[i])
    ensures RowsRead(nodes, t, rows) && FlatBlank(nodes) && TreeBlank(nodes)
  {
    hide Mask, ColumnsOf, LoadedBy;
  }

  lemma FreshApart(nodes: seq<Account>, objects: set<object>)
    requires forall i :: 0 <= i < |nodes| ==> nodes[i] !in objects
    ensures Apart(nodes, objects)
  {
  }

  lemma BlankParents(nodes: seq<Account>)
    requires TreeBlank(nodes)
    ensures forall i :: 0 <= i < |nodes| ==> nodes[i].parent == null
  {
  }

  lemma BlankChildren(nodes: seq<Account>, objects: set<object>)
    requires TreeBlank(nodes) && Apart(nodes, objects)
    ensures forall i :: 0 <= i < |nodes| ==> nodes[i].children == [] && nodes[i] !in objects
  {
  }

  lemma NoParentShown(nodes: seq<Account>, e: Edges, rows: seq<Row>, db: Tables)
    requires |nodes| == |rows| && e.parent.None? && forall i :: 0 <= i < |nodes| ==> nodes[i].parent == null
    ensures ShownParents(nodes, e, rows, {}, db)
  {
  }

  lemma NoChildrenShown(nodes: seq<Account>, e: Edges, rows: seq<Row>, db: Tables)
    requires |nodes| == |rows| && e.children.None? && forall i :: 0 <= i < |nodes| ==> nodes[i].children == []
    ensures ShownChildren(nodes, e, rows, {}, db)
  {
  }

  lemma ReadyParts(t: QTree, db: Tables, j: Json)
    requires Ready(t, db, j)
    ensures Lawful(db) && (t.edges.groups.Some? ==> t.edges.groups.value.joins == 0)
    ensures t.edges.parent.Some? ==> Ready(t.edges.parent.value, db, j)
    ensures t.edges.children.Some? ==> Ready(t.edges.children.value, db, j)
  {
  }

  function AfterParent(parent: Option<QTree>, rows: seq<Row>, db: Tables): Option<QTree>
  {
    match parent case None => None case Some(p) => Some(AfterLookup(p, Keys(PARENT_KEY, rows), db))
  }

  function AfterChildren(children: Option<QTree>, rows: seq<Row>, db: Tables): Option<QTree>
  {
    match children case None => None case Some(c) => Some(AfterFetch(c, IDs(rows), db))
  }

  lemma AfterNone(rows: seq<Row>, db: Tables)
    ensures AfterParent(None, rows, db) == None && AfterChildren(None, rows, db) == None
  {
  }

  lemma AfterParts(e: Edges, rows: seq<Row>, db: Tables)
    requires rows != []
    ensures After(e, rows, db) ==
            Edges(AfterGroups(e.groups), AfterProxy(e.proxy, rows), AfterParent(e.parent, rows, db), AfterChildren(e.children, rows, db))
  {
  }

  /** A run, in terms of its root rows. */
  lemma RunParts(t: QTree, db: Tables)
    requires Lawful(db)
    ensures Load(t, db) == BatchViews(t.edges, ColumnsOf(t), RootRows(t, db), db)
    ensures AfterRun(t, db) == t.(edges := After(t.edges, RootRows(t, db), db))
    ensures Unique(ID_KEY, RootRows(t, db))
    ensures RootRows(t, db) == Select(t.own, db.accounts)
    ensures RootRows(t, db) == [] ==> AfterRun(t, db) == t && Delivered([], Load(t, db), {})
  {
    SelectUnique(ID_KEY, t.own, db.accounts);
  }

  /** The whole query tree after a successful run. */
  function AfterRun(t: QTree, db: Tables): QTree
  {
    t.(edges := After(t.edges, RootRows(t, db), db))
  }

  lemma {:induction false} ScanStops(cols: seq<Column>, cells: Column -> Cell, i: nat)
    requires i < |cols| && Fill(HolderFor(cols[i]), cells(cols[i])) == None
    ensures ScanRow(cols, cells) == None
  {
    hide HolderFor, Fill;
    if i > 0 {
      ScanStops(cols[1..], cells, i - 1);
    }
  }

  lemma {:induction false} ScanFills(cols: seq<Column>, cells: Column -> Cell, hs: seq<Holder>)
    requires |hs| == |cols| && forall k :: 0 <= k < |cols| ==> Fill(HolderFor(cols[k]), cells(cols[k])) == Some(hs[k])
    ensures ScanRow(cols, cells) == Some(hs)
  {
    hide HolderFor, Fill;
    if cols != [] {
      forall k | 0 <= k < |cols| - 1 ensures Fill(HolderFor(cols[1..][k]), cells(cols[1..][k])) == Some(hs[1..][k]) {
        assert cols[1..][k] == cols[k + 1] && hs[1..][k] == hs[k + 1];
      }
      ScanFills(cols[1..], cells, hs[1..]);
      assert [hs[0]] + hs[1..] == hs;
    }
  }

  function FreedPart(t: Option<QTree>): Option<QTree>
  {
    match t case None => None case Some(q) => Some(WithoutLocks(q))
  }

  lemma FreedParts(t: QTree)
    ensures WithoutLocks(t) == QTree(t.own, t.fields, Edges(t.edges.groups, t.edges.proxy, FreedPart(t.edges.parent), FreedPart(t.edges.children)), [])
  {
  }

  ghost function TreePart(q: AccountQuery?): Option<QTree>
    requires q != null ==> q.Valid()
    reads q, if q == null then {} else q.Repr
  {
    if q == null then None else Some(q.Tree())
  }

  lemma NestedPart(q: AccountQuery?)
    requires q != null ==> q.Valid()
    ensures TreePart(q) == if q == null then None else Some(q.Tree())
  {
  }

  ghost predicate Apart(nodes: seq<Account>, objects: set<object>)
  {
    forall i :: 0 <= i < |nodes| ==> nodes[i] !in objects
  }

  method ApplyTo(q: AccountQuery, c: AccountQuery, op: Op, toClone: bool)
    requires q.Valid() && c.Valid() && q.Repr !! c.Repr
    modifies q.Repr, c.Repr
    ensures q.Valid() && c.Valid() && q.Repr !! c.Repr && fresh(q.Repr - old(q.Repr)) && fresh(c.Repr - old(c.Repr))
    ensures q.Tree() == if toClone then old(q.Tree()) else ApplyOp(old(q.Tree()), op)
    ensures c.Tree() == if toClone then ApplyOp(old(c.Tree()), op) else old(c.Tree())
  {
    hide *;
    q.OwnsItself();
    c.OwnsItself();
    if toClone {
      c.Apply(op);
    } else {
      q.Apply(op);
    }
  }

  method Interleave(q: AccountQuery, c: AccountQuery, ops: seq<Op>, side: seq<bool>)
    requires q.Valid() && c.Valid() && q.Repr !! c.Repr && |side| == |ops|
    modifies q.Repr, c.Repr
    ensures q.Valid() && c.Valid() && q.Repr !! c.Repr && fresh(c.Repr - old(c.Repr))
    ensures q.Tree() == ApplyOps(old(q.Tree()), Side(ops, side, false))
    ensures c.Tree() == ApplyOps(old(c.Tree()), Side(ops, side, true))
  {
    hide *;
    NoCalls(old(q.Tree()));
    NoCalls(old(c.Tree()));
    for k := 0 to |ops|
      invariant q.Valid() && c.Valid() && q.Repr !! c.Repr && fresh(c.Repr - old(c.Repr)) && fresh(q.Repr - old(q.Repr))
      invariant q.Tree() == ApplyOps(old(q.Tree()), Side(ops[..k], side[..k], false))
      invariant c.Tree() == ApplyOps(old(c.Tree()), Side(ops[..k], side[..k], true))
    {
      SideStep(ops, side, k, false, old(q.Tree()));
      SideStep(ops, side, k, true, old(c.Tree()));
      ApplyTo(q, c, ops[k], side[k]);
    }
    assert ops[..|ops|] == ops && side[..|ops|] == side;
  }

  lemma NoCalls(t: QTree)
    ensures forall which :: ApplyOps(t, Side([], [], which)) == t
  {
  }

  /** After a clone, calls on the two builders in any interleaving act as if the other builder
      did not exist, backing arrays included: each ends with exactly its own calls applied, the
      clone to the original without its row locks. side[k] tells which of the
      two the k-th call goes to. */
  method CloneIsIndependent(q: AccountQuery, ops: seq<Op>, side: seq<bool>) returns (c: AccountQuery)
    requires q.Valid() && |side| == |ops|
    modifies q.Repr
    ensures q.Valid() && c.Valid() && fresh(c.Repr) && q.Repr !! c.Repr
    ensures q.Tree() == ApplyOps(old(q.Tree()), Side(ops, side, false))
    ensures c.Tree() == ApplyOps(WithoutLocks(old(q.Tree())), Side(ops, side, true))
  {
    hide ApplyOps, Side, AccountQuery.Valid, AccountQuery.Tree;
    c := q.Clone();
    Interleave(q, c, ops, side);
  }

  /** The calls that went to one side. */
  function Side(ops: seq<Op>, side: seq<bool>, which: bool): seq<Op>
    requires |side| == |ops|
  {
    if ops == [] then []
    else
      var n := |ops| - 1;
      Side(ops[..n], side[..n], which) + if side[n] == which then [ops[n]] else []
  }

  lemma SideStep(ops: seq<Op>, side: seq<bool>, k: nat, which: bool, t: QTree)
    requires k < |side| == |ops|
    ensures ApplyOps(t, Side(ops[..k + 1], side[..k + 1], which)) ==
            if side[k] == which then ApplyOp(ApplyOps(t, Side(ops[..k], side[..k], which)), ops[k])
            else ApplyOps(t, Side(ops[..k], side[..k], which))
  {
    assert ops[..k + 1][..k] == ops[..k] && side[..k + 1][..k] == side[..k];
    var before := Side(ops[..k], side[..k], which);
    assert (before + [ops[k]])[..|before|] == before;
    assert before + [] == before;
  }
}
