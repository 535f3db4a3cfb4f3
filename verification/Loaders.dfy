/** The attach loops of the eager loaders: nodes already in memory, neighbours just fetched. */
module Loaders {
  import opened Wrappers
  import opened AccountSchema
  import opened Relational
  import opened JoinSpec
  import opened JoinBatches
  import opened AccountGraph

  datatype Edge = GroupsEdge | ProxyEdge | ParentEdge | ChildrenEdge

  datatype QueryError =
    | Driver
    | InvalidField(column: Column)
    | UnexpectedNode(edge: Edge, id: int)
    | NilForeignKey(id: int)

  /** One key per node, read off the loaded rows. */
  function NodeKeys(nodes: seq<Account>, key: Row -> Option<int>): (ks: seq<Option<int>>)
    reads nodes
    ensures |ks| == |nodes| && forall i :: 0 <= i < |nodes| ==> ks[i] == key(nodes[i].row)
  {
    if nodes == [] then []
    else
      var n := |nodes| - 1;
      NodeKeys(nodes[..n], key) + [key(nodes[n].row)]
  }

  /** The map from a foreign key to the nodes that carry it, in node order, as the
      many-to-one loaders fill it. */
  ghost predicate Indexes(nodeids: map<int, seq<Account>>, nodes: seq<Account>, ks: seq<Option<int>>)
    requires |ks| == |nodes|
  {
    && (forall k :: k in nodeids <==> Some(k) in ks)
    && (forall k :: k in nodeids ==> nodeids[k] == Pick(nodes, ks, k))
  }

  ghost predicate Carries<T>(xs: seq<T>, ks: seq<Option<int>>, k: int, x: T)
    requires |xs| == |ks|
  {
    exists i :: 0 <= i < |xs| && xs[i] == x && ks[i] == Some(k)
  }

  lemma CarriesLast<T>(xs: seq<T>, ks: seq<Option<int>>, k: int, x: T)
    requires |xs| == |ks| > 0
    ensures var n := |xs| - 1;
            Carries(xs, ks, k, x) <==> Carries(xs[..n], ks[..n], k, x) || (xs[n] == x && ks[n] == Some(k))
  {
    var n := |xs| - 1;
    if Carries(xs[..n], ks[..n], k, x) {
      var i :| 0 <= i < n && xs[..n][i] == x && ks[..n][i] == Some(k);
      assert xs[i] == x && ks[i] == Some(k);
    }
    if Carries(xs, ks, k, x) && !(xs[n] == x && ks[n] == Some(k)) {
      var i :| 0 <= i < |xs| && xs[i] == x && ks[i] == Some(k);
      assert xs[..n][i] == x && ks[..n][i] == Some(k);
    }
  }

  lemma {:induction false} PickMembers<T>(xs: seq<T>, ks: seq<Option<int>>, k: int, x: T)
    requires |xs| == |ks|
    ensures x in Pick(xs, ks, k) <==> Carries(xs, ks, k, x)
  {
    if xs != [] {
      var n := |xs| - 1;
      PickMembers(xs[..n], ks[..n], k, x);
      CarriesLast(xs, ks, k, x);
    }
  }

  /** The nodes listed under a key are exactly the ones that carry it. */
  lemma OwnersCarryKey<T>(nodes: seq<T>, ks: seq<Option<int>>, k: int)
    requires |ks| == |nodes|
    requires forall i, j :: 0 <= i < |nodes| && 0 <= j < |nodes| && nodes[i] == nodes[j] ==> ks[i] == ks[j]
    ensures forall m :: 0 <= m < |Pick(nodes, ks, k)| ==> Pick(nodes, ks, k)[m] in nodes
    ensures forall i :: 0 <= i < |nodes| ==> (nodes[i] in Pick(nodes, ks, k) <==> ks[i] == Some(k))
  {
    forall m | 0 <= m < |Pick(nodes, ks, k)| ensures Pick(nodes, ks, k)[m] in nodes {
      PickMembers(nodes, ks, k, Pick(nodes, ks, k)[m]);
    }
    forall i | 0 <= i < |nodes| ensures nodes[i] in Pick(nodes, ks, k) <==> ks[i] == Some(k) {
      PickMembers(nodes, ks, k, nodes[i]);
    }
  }

  /** Where an edge points after the neighbours were attached: to the last neighbour with the
      node's key, or where it pointed before. */
  function Target<T>(near: seq<T>, nearKeys: seq<Option<int>>, k: Option<int>, before: T): T
    requires |near| == |nearKeys|
  {
    match Lookup(near, nearKeys, k) case Some(p) => p case None => before
  }

  lemma TargetStep<T>(near: seq<T>, nearKeys: seq<Option<int>>, n: nat, k: Option<int>, before: T)
    requires n < |near| == |nearKeys| && nearKeys[n].Some?
    ensures Target(near[..n + 1], nearKeys[..n + 1], k, before) ==
            if k == nearKeys[n] then near[n] else Target(near[..n], nearKeys[..n], k, before)
  {
    assert near[..n + 1][..n] == near[..n] && nearKeys[..n + 1][..n] == nearKeys[..n];
    if k.Some? {
      LookupLast(near[..n + 1], nearKeys[..n + 1], k);
    }
  }

  lemma TargetNone<T>(k: Option<int>, before: T)
    ensures Target([], [], k, before) == before
  {
  }

  lemma LookupLast<T>(xs: seq<T>, ks: seq<Option<int>>, k: Option<int>)
    requires |xs| == |ks| > 0 && k.Some?
    ensures Lookup(xs, ks, k) ==
            if ks[|ks| - 1] == k then Some(xs[|xs| - 1]) else Lookup(xs[..|xs| - 1], ks[..|ks| - 1], k)
  {
  }

  /** Assigns one neighbour to every node listed under its key. */
  method PointParents(nodes: seq<Account>, ghost ks: seq<Option<int>>, ghost k: int, owners: seq<Account>, p: Account)
    requires |ks| == |nodes| && forall i :: 0 <= i < |nodes| ==> ks[i] == nodes[i].row.parentAccountID
    requires owners == Pick(nodes, ks, k)
    modifies nodes`parent
    ensures forall i :: 0 <= i < |nodes| ==> nodes[i].parent == if ks[i] == Some(k) then p else old(nodes[i].parent)
  {
    OwnersCarryKey(nodes, ks, k);
    for m := 0 to |owners|
      invariant forall i :: 0 <= i < |nodes| ==> nodes[i].parent == if nodes[i] in owners[..m] then p else old(nodes[i].parent)
    {
      assert owners[m] in nodes;
      owners[m].parent := p;
    }
    assert owners[..|owners|] == owners;
  }

  /** Second half of loadParent, for any node list (repeated IDs and repeated objects too)
      and any neighbours: fails exactly on a neighbour nobody asked for; otherwise every node
      whose key was returned points to that neighbour and all other nodes are unchanged. */
  method AttachParents(nodes: seq<Account>, ghost ks: seq<Option<int>>, nodeids: map<int, seq<Account>>,
                       near: seq<Account>, ghost nearKeys: seq<Option<int>>)
    returns (err: Option<QueryError>)
    requires |ks| == |nodes| && forall i :: 0 <= i < |nodes| ==> ks[i] == nodes[i].row.parentAccountID
    requires Indexes(nodeids, nodes, ks)
    requires |nearKeys| == |near| && forall n :: 0 <= n < |near| ==> nearKeys[n] == Some(near[n].row.id)
    modifies nodes`parent
    ensures err == None <==> forall n :: 0 <= n < |near| ==> nearKeys[n] in ks
    ensures err.Some? ==> err.value.UnexpectedNode?
    ensures err == None ==>
              forall i :: 0 <= i < |nodes| ==> nodes[i].parent == Target<Account?>(near, nearKeys, ks[i], old(nodes[i].parent))
  {
    hide Target, Pick;
    forall i | 0 <= i < |nodes| {
      TargetNone<Account?>(ks[i], nodes[i].parent);
    }
    assert near[..0] == [] && nearKeys[..0] == [];
    for n := 0 to |near|
      invariant forall m :: 0 <= m < n ==> nearKeys[m] in ks
      invariant forall i :: 0 <= i < |nodes| ==>
                  nodes[i].parent == Target<Account?>(near[..n], nearKeys[..n], ks[i], old(nodes[i].parent))
    {
      var id := near[n].row.id;
      if id !in nodeids {
        return Some(UnexpectedNode(ParentEdge, id));
      }
      forall i | 0 <= i < |nodes|
        ensures Target<Account?>(near[..n + 1], nearKeys[..n + 1], ks[i], old(nodes[i].parent)) ==
                if ks[i] == Some(id) then near[n] else nodes[i].parent
      {
        TargetStep<Account?>(near, nearKeys, n, ks[i], old(nodes[i].parent));
      }
      PointParents(nodes, ks, id, nodeids[id], near[n]);
    }
    assert near[..|near|] == near && nearKeys[..|near|] == nearKeys;
    err := None;
  }

  method PointProxies(nodes: seq<Account>, ghost ks: seq<Option<int>>, ghost k: int, owners: seq<Account>, p: Proxy)
    requires |ks| == |nodes| && forall i :: 0 <= i < |nodes| ==> ks[i] == nodes[i].row.proxyID
    requires owners == Pick(nodes, ks, k)
    modifies nodes`proxy
    ensures forall i :: 0 <= i < |nodes| ==> nodes[i].proxy == if ks[i] == Some(k) then p else old(nodes[i].proxy)
  {
    OwnersCarryKey(nodes, ks, k);
    for m := 0 to |owners|
      invariant forall i :: 0 <= i < |nodes| ==> nodes[i].proxy == if nodes[i] in owners[..m] then p else old(nodes[i].proxy)
    {
      assert owners[m] in nodes;
      owners[m].proxy := p;
    }
    assert owners[..|owners|] == owners;
  }

  /** Second half of loadProxy, as loadParent's. */
  method AttachProxies(nodes: seq<Account>, ghost ks: seq<Option<int>>, nodeids: map<int, seq<Account>>,
                       near: seq<Proxy>, ghost nearKeys: seq<Option<int>>)
    returns (err: Option<QueryError>)
    requires |ks| == |nodes| && forall i :: 0 <= i < |nodes| ==> ks[i] == nodes[i].row.proxyID
    requires Indexes(nodeids, nodes, ks)
    requires |nearKeys| == |near| && forall n :: 0 <= n < |near| ==> nearKeys[n] == Some(near[n].row.id)
    modifies nodes`proxy
    ensures err == None <==> forall n :: 0 <= n < |near| ==> nearKeys[n] in ks
    ensures err.Some? ==> err.value.UnexpectedNode?
    ensures err == None ==>
              forall i :: 0 <= i < |nodes| ==> nodes[i].proxy == Target<Proxy?>(near, nearKeys, ks[i], old(nodes[i].proxy))
  {
    hide Target, Pick;
    forall i | 0 <= i < |nodes| {
      TargetNone<Proxy?>(ks[i], nodes[i].proxy);
    }
    assert near[..0] == [] && nearKeys[..0] == [];
    for n := 0 to |near|
      invariant forall m :: 0 <= m < n ==> nearKeys[m] in ks
      invariant forall i :: 0 <= i < |nodes| ==>
                  nodes[i].proxy == Target<Proxy?>(near[..n], nearKeys[..n], ks[i], old(nodes[i].proxy))
    {
      var id := near[n].row.id;
      if id !in nodeids {
        return Some(UnexpectedNode(ProxyEdge, id));
      }
      forall i | 0 <= i < |nodes|
        ensures Target<Proxy?>(near[..n + 1], nearKeys[..n + 1], ks[i], old(nodes[i].proxy)) ==
                if ks[i] == Some(id) then near[n] else nodes[i].proxy
      {
        TargetStep<Proxy?>(near, nearKeys, n, ks[i], old(nodes[i].proxy));
      }
      PointProxies(nodes, ks, id, nodeids[id], near[n]);
    }
    assert near[..|near|] == near && nearKeys[..|near|] == nearKeys;
    err := None;
  }

  lemma IndexesStep(nodeids: map<int, seq<Account>>, nodes: seq<Account>, ks: seq<Option<int>>, a: Account, fk: int)
    requires |ks| == |nodes| && Indexes(nodeids, nodes, ks)
    ensures var before := if fk in nodeids then nodeids[fk] else [];
            Indexes(nodeids[fk := before + [a]], nodes + [a], ks + [Some(fk)])
  {
    var next := nodeids[fk := (if fk in nodeids then nodeids[fk] else []) + [a]];
    assert (nodes + [a])[..|nodes|] == nodes && (ks + [Some(fk)])[..|ks|] == ks;
    if fk !in nodeids {
      PickNothing(nodes, ks, fk);
    }
    forall k | k in next ensures next[k] == Pick(nodes + [a], ks + [Some(fk)], k) {
      assert Pick(nodes + [a], ks + [Some(fk)], k) == Pick(nodes, ks, k) + if k == fk then [a] else [];
    }
  }

  lemma IndexesSkip(nodeids: map<int, seq<Account>>, nodes: seq<Account>, ks: seq<Option<int>>, a: Account)
    requires |ks| == |nodes| && Indexes(nodeids, nodes, ks)
    ensures Indexes(nodeids, nodes + [a], ks + [None])
  {
    assert (nodes + [a])[..|nodes|] == nodes && (ks + [None])[..|ks|] == ks;
  }

  lemma DistinctKeysStep(ks: seq<Option<int>>, k: Option<int>)
    ensures DistinctKeys(ks + [k]) == DistinctKeys(ks) + if k.None? || k in ks then [] else [k.value]
  {
    assert (ks + [k])[..|ks|] == ks;
  }

  /** First half of loadProxy and loadParent: the distinct keys and who carries them. */
  method CollectKeys(nodes: seq<Account>, ks: seq<Option<int>>) returns (ids: seq<int>, nodeids: map<int, seq<Account>>)
    requires |ks| == |nodes|
    ensures ids == DistinctKeys(ks) && Indexes(nodeids, nodes, ks)
  {
    ids, nodeids := [], map[];
    for i := 0 to |nodes|
      invariant ids == DistinctKeys(ks[..i]) && Indexes(nodeids, nodes[..i], ks[..i])
    {
      hide DistinctKeys, Pick;
      assert ks[..i + 1] == ks[..i] + [ks[i]] && nodes[..i + 1] == nodes[..i] + [nodes[i]];
      DistinctKeysStep(ks[..i], ks[i]);
      if ks[i].None? {
        IndexesSkip(nodeids, nodes[..i], ks[..i], nodes[i]);
        continue;
      }
      var fk := ks[i].value;
      IndexesStep(nodeids, nodes[..i], ks[..i], nodes[i], fk);
      if fk !in nodeids {
        ids := ids + [fk];
      }
      nodeids := nodeids[fk := (if fk in nodeids then nodeids[fk] else []) + [nodes[i]]];
    }
    assert ks[..|nodes|] == ks && nodes[..|nodes|] == nodes;
  }

  // ----- one-to-many

  /** The map from an ID to the last node that has it, as the one-to-many loaders fill it. */
  ghost predicate LastByID(nodeids: map<int, Account>, nodes: seq<Account>, ids: seq<Option<int>>)
    requires |ids| == |nodes|
  {
    && (forall k :: k in nodeids <==> Some(k) in ids)
    && (forall k :: k in nodeids ==> Lookup(nodes, ids, Some(k)) == Some(nodeids[k]))
  }

  /** Node i receives the neighbours of its ID: no later node object has the same ID. */
  ghost predicate Owns(nodes: seq<Account>, ids: seq<Option<int>>, i: nat)
    requires |ids| == |nodes| && i < |nodes|
  {
    Lookup(nodes, ids, ids[i]) == Some(nodes[i])
  }

  lemma {:induction false} DistinctNodesOwn(nodes: seq<Account>, ids: seq<Option<int>>, i: nat)
    requires |ids| == |nodes| && i < |nodes| && ids[i].Some?
    requires forall a, b :: 0 <= a < b < |ids| ==> ids[a] != ids[b]
    ensures Owns(nodes, ids, i)
  {
    var p := Latest(ids, ids[i]).value;
    assert ids[p] == ids[i];
  }

  lemma LastByIDStep(nodeids: map<int, Account>, nodes: seq<Account>, ids: seq<Option<int>>, a: Account, id: int)
    requires |ids| == |nodes| && LastByID(nodeids, nodes, ids)
    ensures LastByID(nodeids[id := a], nodes + [a], ids + [Some(id)])
  {
    assert (nodes + [a])[..|nodes|] == nodes && (ids + [Some(id)])[..|ids|] == ids;
    forall k | k in nodeids[id := a] ensures Lookup(nodes + [a], ids + [Some(id)], Some(k)) == Some(nodeids[id := a][k]) {
      LookupLast(nodes + [a], ids + [Some(id)], Some(k));
    }
  }

  method IndexByID(nodes: seq<Account>, ghost ids: seq<Option<int>>) returns (nodeids: map<int, Account>)
    requires |ids| == |nodes| && forall i :: 0 <= i < |nodes| ==> ids[i] == Some(nodes[i].row.id)
    ensures LastByID(nodeids, nodes, ids)
  {
    nodeids := map[];
    for i := 0 to |nodes|
      invariant LastByID(nodeids, nodes[..i], ids[..i])
    {
      hide LastByID;
      assert ids[..i + 1] == ids[..i] + [ids[i]] && nodes[..i + 1] == nodes[..i] + [nodes[i]];
      LastByIDStep(nodeids, nodes[..i], ids[..i], nodes[i], nodes[i].row.id);
      nodeids := nodeids[nodes[i].row.id := nodes[i]];
    }
    assert ids[..|nodes|] == ids && nodes[..|nodes|] == nodes;
  }

  /** An edge list after its owner received the neighbours of its ID, in their order. */
  function Grown<T>(was: seq<T>, owner: bool, near: seq<T>, nearKeys: seq<Option<int>>, id: int): seq<T>
    requires |near| == |nearKeys|
  {
    was + if owner then Pick(near, nearKeys, id) else []
  }

  lemma GrownNone<T>(was: seq<T>, owner: bool, id: int)
    ensures Grown(was, owner, [], [], id) == was
  {
  }

  lemma GrownStep<T>(was: seq<T>, owner: bool, near: seq<T>, nearKeys: seq<Option<int>>, n: nat, id: int)
    requires n < |near| == |nearKeys|
    ensures Grown(was, owner, near[..n + 1], nearKeys[..n + 1], id) ==
            Grown(was, owner, near[..n], nearKeys[..n], id) + if owner && nearKeys[n] == Some(id) then [near[n]] else []
  {
    assert near[..n + 1][..n] == near[..n] && nearKeys[..n + 1][..n] == nearKeys[..n];
  }

  lemma KeyIndexed(nodeids: map<int, Account>, nodes: seq<Account>, ids: seq<Option<int>>, k: int)
    requires |ids| == |nodes| && LastByID(nodeids, nodes, ids)
    ensures k in nodeids <==> Some(k) in ids
  {
  }

  /** Appends one neighbour to the node that owns its key. */
  method AppendChild(nodes: seq<Account>, ghost ids: seq<Option<int>>, nodeids: map<int, Account>, k: int, n: Account)
    requires |ids| == |nodes| && forall i :: 0 <= i < |nodes| ==> ids[i] == Some(nodes[i].row.id)
    requires LastByID(nodeids, nodes, ids) && k in nodeids
    modifies nodes`children
    ensures forall i :: 0 <= i < |nodes| ==>
              nodes[i].children == old(nodes[i].children) + if Owns(nodes, ids, i) && ids[i] == Some(k) then [n] else []
  {
    var owner := nodeids[k];
    var p := Latest(ids, Some(k)).value;
    assert nodes[p] == owner && owner in nodes;
    owner.children := owner.children + [n];
  }

  /** Every owning node has received its share of the first n neighbours. */
  ghost predicate GrownTo(nodes: seq<Account>, was: seq<seq<Account>>, ids: seq<Option<int>>,
                          near: seq<Account>, nearKeys: seq<Option<int>>, n: nat)
    requires |was| == |ids| == |nodes| && n <= |near| == |nearKeys|
    reads nodes
  {
    forall i :: 0 <= i < |nodes| ==>
      nodes[i].children == Grown(was[i], Owns(nodes, ids, i), near[..n], nearKeys[..n], nodes[i].row.id)
  }

  lemma GrownToStart(nodes: seq<Account>, was: seq<seq<Account>>, ids: seq<Option<int>>, near: seq<Account>, nearKeys: seq<Option<int>>)
    requires |was| == |ids| == |nodes| && |near| == |nearKeys|
    requires forall i :: 0 <= i < |nodes| ==> nodes[i].children == was[i]
    ensures GrownTo(nodes, was, ids, near, nearKeys, 0)
  {
    hide Owns;
    forall i | 0 <= i < |nodes|
      ensures Grown(was[i], Owns(nodes, ids, i), near[..0], nearKeys[..0], nodes[i].row.id) == was[i]
    {
      GrownNone<Account>(was[i], Owns(nodes, ids, i), nodes[i].row.id);
    }
  }

  /** The step of AttachChildren: one more neighbour has gone to the node that owns its key. */
  lemma GrownToNext(nodes: seq<Account>, was: seq<seq<Account>>, before: seq<seq<Account>>, ids: seq<Option<int>>,
                    near: seq<Account>, nearKeys: seq<Option<int>>, n: nat)
    requires |was| == |before| == |ids| == |nodes| && n < |near| == |nearKeys|
    requires forall i :: 0 <= i < |nodes| ==> ids[i] == Some(nodes[i].row.id)
    requires forall i :: 0 <= i < |nodes| ==>
               before[i] == Grown(was[i], Owns(nodes, ids, i), near[..n], nearKeys[..n], nodes[i].row.id)
    requires forall i :: 0 <= i < |nodes| ==>
               nodes[i].children == before[i] + if Owns(nodes, ids, i) && ids[i] == nearKeys[n] then [near[n]] else []
    ensures GrownTo(nodes, was, ids, near, nearKeys, n + 1)
  {
    hide Owns, Grown;
    forall i | 0 <= i < |nodes|
      ensures nodes[i].children == Grown(was[i], Owns(nodes, ids, i), near[..n + 1], nearKeys[..n + 1], nodes[i].row.id)
    {
      GrownStep(was[i], Owns(nodes, ids, i), near, nearKeys, n, nodes[i].row.id);
    }
  }

  /** One turn of the loop of loadChildren, for a neighbour whose key is known. */
  method AttachChild(nodes: seq<Account>, ghost was: seq<seq<Account>>, ghost ids: seq<Option<int>>, nodeids: map<int, Account>,
                     near: seq<Account>, ghost nearKeys: seq<Option<int>>, n: nat, fk: int)
    requires |was| == |ids| == |nodes| && n < |near| == |nearKeys| && nearKeys[n] == Some(fk)
    requires forall i :: 0 <= i < |nodes| ==> ids[i] == Some(nodes[i].row.id)
    requires LastByID(nodeids, nodes, ids) && fk in nodeids
    requires GrownTo(nodes, was, ids, near, nearKeys, n)
    modifies nodes`children
    ensures GrownTo(nodes, was, ids, near, nearKeys, n + 1)
  {
    ghost var before := ChildLists(nodes);
    hide LastByID, Owns, Grown;
    AppendChild(nodes, ids, nodeids, fk, near[n]);
    GrownToNext(nodes, was, before, ids, near, nearKeys, n);
  }

  ghost function ChildLists(nodes: seq<Account>): (lists: seq<seq<Account>>)
    reads nodes`children
    ensures |lists| == |nodes| && forall i :: 0 <= i < |nodes| ==> lists[i] == nodes[i].children
  {
    if nodes == [] then []
    else
      var n := |nodes| - 1;
      ChildLists(nodes[..n]) + [nodes[n].children]
  }

  lemma GrownToEnd(nodes: seq<Account>, was: seq<seq<Account>>, ids: seq<Option<int>>, near: seq<Account>, nearKeys: seq<Option<int>>)
    requires |was| == |ids| == |nodes| && |near| == |nearKeys| && GrownTo(nodes, was, ids, near, nearKeys, |near|)
    ensures forall i :: 0 <= i < |nodes| ==>
              nodes[i].children == Grown(was[i], Owns(nodes, ids, i), near, nearKeys, nodes[i].row.id)
  {
    hide Owns, Grown;
    assert near[..|near|] == near && nearKeys[..|near|] == nearKeys;
  }

  /** Second half of loadChildren, for any node list and any neighbours: fails exactly when
      some neighbour has a nil foreign key or one that belongs to no node; otherwise each
      owning node gains its own neighbours in order and every other node gains none. */
  method AttachChildren(nodes: seq<Account>, ghost ids: seq<Option<int>>, nodeids: map<int, Account>,
                        near: seq<Account>, ghost nearKeys: seq<Option<int>>)
    returns (err: Option<QueryError>)
    requires |ids| == |nodes| && forall i :: 0 <= i < |nodes| ==> ids[i] == Some(nodes[i].row.id)
    requires LastByID(nodeids, nodes, ids)
    requires |nearKeys| == |near| && forall n :: 0 <= n < |near| ==> nearKeys[n] == near[n].row.parentAccountID
    modifies nodes`children
    ensures err == None <==> forall n :: 0 <= n < |near| ==> nearKeys[n].Some? && nearKeys[n] in ids
    ensures err.Some? ==> err.value.UnexpectedNode? || err.value.NilForeignKey?
    ensures err == None ==>
              forall i :: 0 <= i < |nodes| ==>
                nodes[i].children == Grown(old(nodes[i].children), Owns(nodes, ids, i), near, nearKeys, nodes[i].row.id)
  {
    hide *;
    ghost var was := ChildLists(nodes);
    GrownToStart(nodes, was, ids, near, nearKeys);
    for n := 0 to |near|
      invariant forall m :: 0 <= m < n ==> nearKeys[m].Some? && nearKeys[m] in ids
      invariant GrownTo(nodes, was, ids, near, nearKeys, n)
    {
      var fk := near[n].row.parentAccountID;
      if fk.None? {
        return Some(NilForeignKey(near[n].row.id));
      }
      KeyIndexed(nodeids, nodes, ids, fk.value);
      if fk.value !in nodeids {
        return Some(UnexpectedNode(ChildrenEdge, fk.value));
      }
      AttachChild(nodes, was, ids, nodeids, near, nearKeys, n, fk.value);
    }
    GrownToEnd(nodes, was, ids, near, nearKeys);
    err := None;
  }

  // ----- every neighbour lands in exactly one node

  /** How many children the nodes have together. */
  ghost function TotalChildren(nodes: seq<Account>): nat
    reads nodes`children
  {
    if nodes == [] then 0 else |nodes[0].children| + TotalChildren(nodes[1..])
  }

  /** Neighbour n stands in the list of node i, at the place its predecessors of the same key
      leave it. */
  ghost predicate Lands(nodes: seq<Account>, near: seq<Account>, nearKeys: seq<Option<int>>, n: nat, i: nat)
    requires n < |near| == |nearKeys| && i < |nodes|
    reads nodes
  {
    && nearKeys[n] == Some(nodes[i].row.id)
    && var place := |Pick(near[..n], nearKeys[..n], nodes[i].row.id)|;
    place < |nodes[i].children| && nodes[i].children[place] == near[n]
  }

  lemma {:induction false} TotalChildrenPicked(nodes: seq<Account>, ids: seq<int>, near: seq<Account>, nearKeys: seq<Option<int>>)
    requires |ids| == |nodes| && |near| == |nearKeys|
    requires forall i :: 0 <= i < |nodes| ==> nodes[i].children == Pick(near, nearKeys, ids[i])
    ensures TotalChildren(nodes) == TotalPicked(ids, near, nearKeys)
    decreases |nodes|
  {
    hide Pick;
    if nodes != [] {
      forall i | 0 <= i < |nodes[1..]| ensures nodes[1..][i].children == Pick(near, nearKeys, ids[1..][i]) {
        assert nodes[1..][i] == nodes[i + 1] && ids[1..][i] == ids[i + 1];
      }
      TotalChildrenPicked(nodes[1..], ids[1..], near, nearKeys);
    }
  }

  /** loadChildren partitions its neighbours: after it attached them to nodes with distinct IDs
      and empty lists, the lists hold as many children as there are neighbours, and every
      neighbour lands in exactly one of them. */
  method PartitionChildren(nodes: seq<Account>, ghost ids: seq<int>, nodeids: map<int, Account>,
                           near: seq<Account>, ghost nearKeys: seq<Option<int>>)
    returns (err: Option<QueryError>)
    requires |ids| == |nodes| && forall i :: 0 <= i < |nodes| ==> ids[i] == nodes[i].row.id && nodes[i].children == []
    requires forall i, j :: 0 <= i < j < |ids| ==> ids[i] != ids[j]
    requires LastByID(nodeids, nodes, Wrapped(ids))
    requires |nearKeys| == |near| && forall n :: 0 <= n < |near| ==> nearKeys[n] == near[n].row.parentAccountID
    modifies nodes`children
    ensures err == None <==> forall n :: 0 <= n < |near| ==> nearKeys[n].Some? && nearKeys[n].value in ids
    ensures err == None ==> TotalChildren(nodes) == |near|
    ensures err == None ==> forall n :: 0 <= n < |near| ==> LandsOnce(nodes, near, nearKeys, n)
    ensures err == None ==> forall i :: 0 <= i < |nodes| ==> nodes[i].children == Pick(near, nearKeys, ids[i])
  {
    hide *;
    err := AttachChildren(nodes, Wrapped(ids), nodeids, near, nearKeys);
    WrappedMembers(ids, nearKeys);
    if err == None {
      forall i | 0 <= i < |nodes| ensures nodes[i].children == Pick(near, nearKeys, ids[i]) {
        DistinctNodesOwn(nodes, Wrapped(ids), i);
        GrownFromEmpty(near, nearKeys, ids[i]);
      }
      TotalChildrenPicked(nodes, ids, near, nearKeys);
      SharesPartition(ids, near, nearKeys);
      forall n | 0 <= n < |near| ensures LandsOnce(nodes, near, nearKeys, n) {
        var i :| 0 <= i < |ids| && ids[i] == nearKeys[n].value;
        LandsAt(nodes, ids, near, nearKeys, n, i);
      }
    }
  }

  /** No other node has this foreign key as its ID. */
  ghost predicate OnlyOwner(nodes: seq<Account>, k: Option<int>, i: nat)
    requires i < |nodes|
    reads nodes`row
  {
    forall m :: 0 <= m < |nodes| && m != i ==> k != Some(nodes[m].row.id)
  }

  lemma LandsAt(nodes: seq<Account>, ids: seq<int>, near: seq<Account>, nearKeys: seq<Option<int>>, n: nat, i: nat)
    requires |ids| == |nodes| && n < |near| == |nearKeys| && i < |nodes| && nearKeys[n] == Some(ids[i])
    requires forall a, b :: 0 <= a < b < |ids| ==> ids[a] != ids[b]
    requires forall m :: 0 <= m < |nodes| ==> ids[m] == nodes[m].row.id
    requires nodes[i].children == Pick(near, nearKeys, ids[i])
    ensures LandsOnce(nodes, near, nearKeys, n)
  {
    hide Pick;
    PickPlace(near, nearKeys, ids[i], n);
    assert Lands(nodes, near, nearKeys, n, i) && OnlyOwner(nodes, nearKeys[n], i);
  }

  /** Neighbour n is listed by one node, and no other node has its foreign key. */
  ghost predicate LandsOnce(nodes: seq<Account>, near: seq<Account>, nearKeys: seq<Option<int>>, n: nat)
    requires n < |near| == |nearKeys|
    reads nodes
  {
    exists i :: 0 <= i < |nodes| && Lands(nodes, near, nearKeys, n, i) && OnlyOwner(nodes, nearKeys[n], i)
  }

  lemma GrownFromEmpty<T>(near: seq<T>, nearKeys: seq<Option<int>>, id: int)
    requires |near| == |nearKeys|
    ensures Grown([], true, near, nearKeys, id) == Pick(near, nearKeys, id)
  {
  }

  function Wrapped(ids: seq<int>): (ks: seq<Option<int>>)
    ensures |ks| == |ids| && forall i :: 0 <= i < |ids| ==> ks[i] == Some(ids[i])
  {
    seq(|ids|, i requires 0 <= i < |ids| => Some(ids[i]))
  }

  lemma WrappedMembers(ids: seq<int>, ks: seq<Option<int>>)
    ensures forall n :: 0 <= n < |ks| ==> (ks[n].Some? && ks[n] in Wrapped(ids) <==> ks[n].Some? && ks[n].value in ids)
  {
    forall n | 0 <= n < |ks| && ks[n].Some? ensures ks[n] in Wrapped(ids) <==> ks[n].value in ids {
      if ks[n].value in ids {
        var i :| 0 <= i < |ids| && ids[i] == ks[n].value;
        assert Wrapped(ids)[i] == ks[n];
      }
    }
  }

  // ----- many-to-many

  /** The node sets of the scan hook: which owning nodes each joined group belongs to. */
  ghost predicate Members(nids: map<int, set<Account>>, nodes: seq<Account>, ids: seq<Option<int>>, rows: seq<JoinRow>)
    requires |ids| == |nodes|
  {
    && (forall g :: g in nids <==> HasJoin(rows, g))
    && (forall g, i :: g in nids && 0 <= i < |nodes| ==> (nodes[i] in nids[g] <==> Receives(nodes, ids, i, rows, g)))
    && (forall g, a :: g in nids && a in nids[g] ==> a in nodes)
  }

  ghost predicate Receives(nodes: seq<Account>, ids: seq<Option<int>>, i: nat, rows: seq<JoinRow>, group: int)
    requires |ids| == |nodes| && i < |nodes|
  {
    Owns(nodes, ids, i) && ids[i].Some? && Joined(rows, ids[i].value, group)
  }

  lemma HasJoinStep(rows: seq<JoinRow>, r: JoinRow, group: int)
    ensures HasJoin(rows + [r], group) <==> HasJoin(rows, group) || r.1.id == group
  {
    HasJoinLast(rows + [r], group);
    assert (rows + [r])[..|rows|] == rows;
  }

  /** byID maps an account ID to the one node that owns it. */
  lemma OwnerByID(byID: map<int, Account>, nodes: seq<Account>, ids: seq<Option<int>>, k: int, i: nat)
    requires |ids| == |nodes| && LastByID(byID, nodes, ids) && k in byID && i < |nodes|
    requires forall i, j :: 0 <= i < |nodes| && 0 <= j < |nodes| && nodes[i] == nodes[j] ==> ids[i] == ids[j]
    ensures nodes[i] == byID[k] <==> Owns(nodes, ids, i) && ids[i] == Some(k)
  {
    var p := Latest(ids, Some(k)).value;
    assert nodes[p] == byID[k] && ids[p] == Some(k);
  }

  lemma MembersStep(nids: map<int, set<Account>>, nodes: seq<Account>, ids: seq<Option<int>>, byID: map<int, Account>,
                    rows: seq<JoinRow>, r: JoinRow)
    requires |ids| == |nodes| && Members(nids, nodes, ids, rows) && LastByID(byID, nodes, ids) && r.0 in byID
    requires forall i, j :: 0 <= i < |nodes| && 0 <= j < |nodes| && nodes[i] == nodes[j] ==> ids[i] == ids[j]
    ensures var before := if r.1.id in nids then nids[r.1.id] else {};
            Members(nids[r.1.id := before + {byID[r.0]}], nodes, ids, rows + [r])
  {
    hide Owns, Joined, HasJoin, LastByID;
    var before := if r.1.id in nids then nids[r.1.id] else {};
    var next := nids[r.1.id := before + {byID[r.0]}];
    OwnerIsNode(byID, nodes, ids, r.0);
    forall g ensures g in next <==> HasJoin(rows + [r], g) {
      HasJoinStep(rows, r, g);
    }
    forall g, i | g in next && 0 <= i < |nodes| ensures nodes[i] in next[g] <==> Receives(nodes, ids, i, rows + [r], g) {
      OwnerByID(byID, nodes, ids, r.0, i);
      if ids[i].Some? {
        JoinedMore(rows, r, ids[i].value, g);
        NoJoin(rows, ids[i].value, g);
      }
    }
  }

  lemma OwnerIsNode(byID: map<int, Account>, nodes: seq<Account>, ids: seq<Option<int>>, k: int)
    requires |ids| == |nodes| && LastByID(byID, nodes, ids) && k in byID
    ensures byID[k] in nodes
  {
    var p := Latest(ids, Some(k)).value;
    assert nodes[p] == byID[k];
  }

  lemma NoJoin(rows: seq<JoinRow>, account: int, group: int)
    ensures Joined(rows, account, group) ==> HasJoin(rows, group)
  {
  }

  /** The Assign hook of loadGroups, row by row: the first row of a group creates its node,
      later rows (repeated ones too) only record one more account. */
  method ScanJoin(nodes: seq<Account>, ghost ids: seq<Option<int>>, byID: map<int, Account>, rows: seq<JoinRow>)
    returns (near: seq<Group>, nids: map<int, set<Account>>)
    requires |ids| == |nodes| && LastByID(byID, nodes, ids)
    requires forall i, j :: 0 <= i < |nodes| && 0 <= j < |nodes| && nodes[i] == nodes[j] ==> ids[i] == ids[j]
    requires forall k :: 0 <= k < |rows| ==> rows[k].0 in byID
    ensures GroupRows(near) == FirstAppearance(rows)
    ensures Members(nids, nodes, ids, rows)
  {
    near, nids := [], map[];
    for k := 0 to |rows|
      invariant GroupRows(near) == FirstAppearance(rows[..k])
      invariant Members(nids, nodes, ids, rows[..k])
    {
      hide LastByID, Receives, Owns;
      var (account, g) := rows[k];
      assert rows[..k + 1] == rows[..k] + [rows[k]];
      assert (rows[..k] + [rows[k]])[..k] == rows[..k];
      AppearanceIDs(rows[..k], g.id);
      MembersStep(nids, nodes, ids, byID, rows[..k], rows[k]);
      if g.id !in nids {
        nids := nids[g.id := {byID[account]}];
        var n := new Group(g);
        near := near + [n];
      } else {
        nids := nids[g.id := nids[g.id] + {byID[account]}];
      }
    }
    assert rows[..|rows|] == rows;
  }

  /** Go visits the set in some order; every order appends the group once to each member. */
  method AppendGroup(nodes: seq<Account>, members: set<Account>, g: Group)
    requires forall a :: a in members ==> a in nodes
    modifies nodes`groups
    ensures forall i :: 0 <= i < |nodes| ==>
              nodes[i].groups == old(nodes[i].groups) + if nodes[i] in members then [g] else []
  {
    var rest := members;
    while rest != {}
      invariant rest <= members
      invariant forall i :: 0 <= i < |nodes| ==>
                  nodes[i].groups == old(nodes[i].groups) + if nodes[i] in members - rest then [g] else []
    {
      var kn :| kn in rest;
      assert kn in nodes;
      kn.groups := kn.groups + [g];
      rest := rest - {kn};
    }
  }

  function GrownGroups(was: seq<GroupRow>, owner: bool, near: seq<GroupRow>, rows: seq<JoinRow>, account: int): seq<GroupRow>
  {
    was + if owner then KeepJoined(near, rows, account) else []
  }

  lemma GrownGroupsNone(was: seq<GroupRow>, owner: bool, rows: seq<JoinRow>, account: int)
    ensures GrownGroups(was, owner, [], rows, account) == was
  {
  }

  lemma GrownGroupsStep(was: seq<GroupRow>, owner: bool, near: seq<GroupRow>, n: nat, rows: seq<JoinRow>, account: int)
    requires n < |near|
    ensures GrownGroups(was, owner, near[..n + 1], rows, account) ==
            GrownGroups(was, owner, near[..n], rows, account) + if owner && Joined(rows, account, near[n].id) then [near[n]] else []
  {
    assert near[..n + 1][..n] == near[..n];
  }

  lemma GroupRowsAppend(gs: seq<Group>, g: Group)
    ensures GroupRows(gs + [g]) == GroupRows(gs) + [g.row]
  {
  }

  /** Second half of loadGroups: fails exactly on a group without a node set; otherwise each
      owning node gains its joined groups in the order of near, whatever the map order. */
  method AttachGroups(nodes: seq<Account>, ghost ids: seq<Option<int>>, nids: map<int, set<Account>>,
                      near: seq<Group>, ghost rows: seq<JoinRow>)
    returns (err: Option<QueryError>)
    requires |ids| == |nodes| && Members(nids, nodes, ids, rows)
    requires forall i :: 0 <= i < |nodes| ==> ids[i] == Some(nodes[i].row.id)
    modifies nodes`groups
    ensures err == None <==> forall n :: 0 <= n < |near| ==> HasJoin(rows, near[n].row.id)
    ensures err.Some? ==> err.value.UnexpectedNode?
    ensures err == None ==>
              forall i :: 0 <= i < |nodes| ==>
                GroupRows(nodes[i].groups) ==
                GrownGroups(GroupRows(old(nodes[i].groups)), Owns(nodes, ids, i), GroupRows(near), rows, nodes[i].row.id)
  {
    hide GrownGroups, Owns, Joined, HasJoin;
    ghost var all := GroupRows(near);
    forall i | 0 <= i < |nodes|
      ensures GrownGroups(GroupRows(nodes[i].groups), Owns(nodes, ids, i), all[..0], rows, nodes[i].row.id) == GroupRows(nodes[i].groups)
    {
      GrownGroupsNone(GroupRows(nodes[i].groups), Owns(nodes, ids, i), rows, nodes[i].row.id);
    }
    for n := 0 to |near|
      invariant forall m :: 0 <= m < n ==> HasJoin(rows, near[m].row.id)
      invariant forall i :: 0 <= i < |nodes| ==>
                  GroupRows(nodes[i].groups) ==
                  GrownGroups(GroupRows(old(nodes[i].groups)), Owns(nodes, ids, i), all[..n], rows, nodes[i].row.id)
    {
      var id := near[n].row.id;
      if id !in nids {
        return Some(UnexpectedNode(GroupsEdge, id));
      }
      forall i | 0 <= i < |nodes|
        ensures GrownGroups(GroupRows(old(nodes[i].groups)), Owns(nodes, ids, i), all[..n + 1], rows, nodes[i].row.id) ==
                if nodes[i] in nids[id] then GroupRows(nodes[i].groups + [near[n]]) else GroupRows(nodes[i].groups)
      {
        GrownGroupsStep(GroupRows(old(nodes[i].groups)), Owns(nodes, ids, i), all, n, rows, nodes[i].row.id);
        GroupRowsAppend(nodes[i].groups, near[n]);
      }
      AppendGroup(nodes, nids[id], near[n]);
    }
    assert all[..|near|] == all;
    err := None;
  }
}
