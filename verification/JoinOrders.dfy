/** The order of an account's groups over all databases with the same tables: exactly when no
    legal arrangement of the joined rows can change it. */
module JoinOrders {
  import opened Wrappers
  import opened AccountSchema
  import opened Relational
  import opened JoinSpec
  import opened JoinBatches
  import opened JoinGroups
  import opened JoinAnswers

  /** How a database answers joined queries. */
  type Answers = (Own<GroupRow>, seq<int>) -> seq<JoinRow>

  /** The same tables behind another database. */
  function Answering(db: Tables, answers: Answers): Tables
  {
    db.(joined := answers)
  }

  // ----- two groups that no order term tells apart

  lemma {:induction false} TiedAlike(order: seq<GroupRow -> int>, g: GroupRow, h: GroupRow, x: GroupRow)
    requires AtMost(order, g, h) && AtMost(order, h, g)
    ensures AtMost(order, g, x) <==> AtMost(order, h, x)
    ensures AtMost(order, x, g) <==> AtMost(order, x, h)
  {
    if order != [] {
      TiedAlike(order[1..], g, h, x);
    }
  }

  function Swapped<T>(s: seq<T>, i: nat, j: nat): seq<T>
    requires i < |s| && j < |s|
  {
    s[i := s[j]][j := s[i]]
  }

  lemma SwappedSorted(own: Own<GroupRow>, gs: seq<GroupRow>, i: nat, j: nat)
    requires i < j < |gs| && Sorted(own.order, gs) && Tied(own, gs[i], gs[j])
    ensures Sorted(own.order, Swapped(gs, i, j))
  {
    var hs := Swapped(gs, i, j);
    forall x, y | 0 <= x < y < |hs| ensures AtMost(own.order, hs[x], hs[y]) {
      TiedAlike(own.order, gs[i], gs[j], gs[x]);
      TiedAlike(own.order, gs[i], gs[j], gs[y]);
    }
  }

  lemma SwappedJoins(gs: seq<GroupRow>, i: nat, j: nat, ms: seq<(int, int)>, ids: seq<int>)
    requires i < j < |gs|
    ensures multiset(JoinRows(Swapped(gs, i, j), ms, ids)) == multiset(JoinRows(gs, ms, ids))
  {
    var a, b, c := gs[..i], gs[i + 1..j], gs[j + 1..];
    assert gs == a + [gs[i]] + b + [gs[j]] + c;
    assert Swapped(gs, i, j) == a + [gs[j]] + b + [gs[i]] + c;
    FiveJoins(a, [gs[i]], b, [gs[j]], c, ms, ids);
    FiveJoins(a, [gs[j]], b, [gs[i]], c, ms, ids);
  }

  lemma FiveJoins(a: seq<GroupRow>, g: seq<GroupRow>, b: seq<GroupRow>, h: seq<GroupRow>, c: seq<GroupRow>,
                  ms: seq<(int, int)>, ids: seq<int>)
    ensures multiset(JoinRows(a + g + b + h + c, ms, ids)) ==
            multiset(JoinRows(a, ms, ids)) + multiset(JoinRows(g, ms, ids)) + multiset(JoinRows(b, ms, ids)) +
            multiset(JoinRows(h, ms, ids)) + multiset(JoinRows(c, ms, ids))
  {
    hide JoinRows;
    JoinRowsConcat(a, g, ms, ids);
    JoinRowsConcat(a + g, b, ms, ids);
    JoinRowsConcat(a + g + b, h, ms, ids);
    JoinRowsConcat(a + g + b + h, c, ms, ids);
  }

  lemma SwappedUnique(gs: seq<GroupRow>, i: nat, j: nat)
    requires i < j < |gs| && Unique(GROUP_ID_KEY, gs)
    ensures Unique(GROUP_ID_KEY, Swapped(gs, i, j))
  {
    var hs := Swapped(gs, i, j);
    forall x, y | 0 <= x < y < |hs| ensures GROUP_ID_KEY(hs[x]) != GROUP_ID_KEY(hs[y]) {
      var u := if x == i then j else if x == j then i else x;
      var v := if y == i then j else if y == j then i else y;
      assert hs[x] == gs[u] && hs[y] == gs[v] && u != v;
      assert u < v || v < u;
    }
  }

  /** An account that is in both groups makes the join meet the earlier one first. */
  lemma JoinsMeet(gs: seq<GroupRow>, ms: seq<(int, int)>, ids: seq<int>, i: nat, j: nat, account: int)
    requires i < j < |gs| && Unique(GROUP_ID_KEY, gs) && account in ids && (account, gs[i].id) in ms
    ensures Meets(JoinRows(gs, ms, ids), gs[i].id, gs[j].id)
  {
    var before, after := gs[..j], gs[j..];
    var rows := JoinRows(gs, ms, ids);
    assert gs == before + after;
    JoinRowsConcat(before, after, ms, ids);
    var first := JoinRows(before, ms, ids);
    assert before[i] == gs[i];
    JoinRowsMembers(before, ms, ids, (account, gs[i]));
    var x :| 0 <= x < |first| && first[x] == (account, gs[i]);
    forall y | 0 <= y <= x ensures rows[y].1.id != gs[j].id {
      assert rows[y] == first[y] && first[y] in first;
      JoinRowsMembers(before, ms, ids, first[y]);
      var u :| 0 <= u < j && before[u] == first[y].1;
      assert GROUP_ID_KEY(gs[u]) != GROUP_ID_KEY(gs[j]);
    }
    assert rows[x] == first[x];
    assert Clear(rows, x, gs[j].id);
  }

  // ----- a database that answers one batch differently

  /** Group by group, but for one joined query. */
  ghost function Switching(own: Own<GroupRow>, ids: seq<int>, answer: seq<JoinRow>, db: Tables): Answers
  {
    (o, keys) => if o == own && keys == ids then answer else GroupByGroup(o, keys, db)
  }

  lemma SwitchingLawful(own: Own<GroupRow>, ids: seq<int>, answer: seq<JoinRow>, db: Tables)
    requires Keyed(db) && Arranged(own, ids, db, answer)
    ensures Lawful(Answering(db, Switching(own, ids, answer, db)))
  {
    var other := Answering(db, Switching(own, ids, answer, db));
    forall o: Own<GroupRow>, keys: seq<int> ensures Arranged(o, keys, other, other.joined(o, keys)) {
      GroupByGroupIsArranged(o, keys, db);
      hide GroupByGroup;
    }
  }

  lemma SwappedIsArranged(own: Own<GroupRow>, ids: seq<int>, i: nat, j: nat, db: Tables)
    requires var gs := Arrange(own.order, Filter(own.preds, db.groups)); i < j < |gs| && Tied(own, gs[i], gs[j])
    ensures var gs := Arrange(own.order, Filter(own.preds, db.groups));
            Arranged(own, ids, db, JoinRows(Swapped(gs, i, j), db.memberships, ids))
  {
    var selected := Filter(own.preds, db.groups);
    var gs := Arrange(own.order, selected);
    ArrangeSorted(own.order, selected);
    SwappedSorted(own, gs, i, j);
    SortedJoins(own.order, Swapped(gs, i, j), db.memberships, ids);
    SwappedJoins(gs, i, j, db.memberships, ids);
    ArrangedJoins(own.order, selected, db.memberships, ids);
    hide Arrange, Filter, JoinRows, Swapped, AtMost;
  }

  /** Two tied groups of an account: some lawful database lists them for the batch in the other
      order than for the account alone. */
  lemma TiedGroupsVary(plan: GroupPlan, ids: seq<int>, account: int, g: GroupRow, h: GroupRow, db: Tables) returns (answers: Answers)
    requires Keyed(db) && plan.own.Unwindowed() && account in ids && ids != [account]
    requires Belongs(plan.own, account, g, db) && Belongs(plan.own, account, h, db) && g != h && Tied(plan.own, g, h)
    ensures var other := Answering(db, answers);
            Lawful(other) && GroupsOf(SelectJoin(plan, ids, other), account) != NestedGroups(plan, account, other)
  {
    var i, j := PlacesOf(plan.own, account, g, h, db);
    if i < j {
      answers := VaryAt(plan, ids, account, i, j, db);
    } else {
      answers := VaryAt(plan, ids, account, j, i, db);
    }
  }

  /** Where two selected groups stand in their order. */
  lemma PlacesOf(own: Own<GroupRow>, account: int, g: GroupRow, h: GroupRow, db: Tables) returns (i: nat, j: nat)
    requires Belongs(own, account, g, db) && Belongs(own, account, h, db) && g != h
    ensures var gs := Arrange(own.order, Filter(own.preds, db.groups));
            i < |gs| && j < |gs| && i != j && gs[i] == g && gs[j] == h
  {
    var selected := Filter(own.preds, db.groups);
    var gs := Arrange(own.order, selected);
    FilterMembers(own.preds, db.groups, g);
    FilterMembers(own.preds, db.groups, h);
    ArrangeMembers(own.order, selected, g);
    ArrangeMembers(own.order, selected, h);
    i :| 0 <= i < |gs| && gs[i] == g;
    j :| 0 <= j < |gs| && gs[j] == h;
  }

  lemma VaryAt(plan: GroupPlan, ids: seq<int>, account: int, i: nat, j: nat, db: Tables) returns (answers: Answers)
    requires Keyed(db) && plan.own.Unwindowed() && account in ids && ids != [account]
    requires var gs := Arrange(plan.own.order, Filter(plan.own.preds, db.groups));
             && i < j < |gs| && Tied(plan.own, gs[i], gs[j])
             && Belongs(plan.own, account, gs[i], db) && Belongs(plan.own, account, gs[j], db)
    ensures var other := Answering(db, answers);
            Lawful(other) && GroupsOf(SelectJoin(plan, ids, other), account) != NestedGroups(plan, account, other)
  {
    var own := plan.own;
    var selected := Filter(own.preds, db.groups);
    var gs := Arrange(own.order, selected);
    var hs := Swapped(gs, i, j);
    var batch, mine := JoinRows(hs, db.memberships, ids), JoinRows(gs, db.memberships, [account]);
    FilterUnique(GROUP_ID_KEY, own.preds, db.groups);
    ArrangeUnique(GROUP_ID_KEY, own.order, selected);
    SwappedUnique(gs, i, j);
    SwappedIsArranged(own, ids, i, j, db);
    answers := Switching(own, ids, batch, db);
    var other := Answering(db, answers);
    SwitchingLawful(own, ids, batch, db);
    JoinsMeet(gs, db.memberships, [account], i, j, account);
    JoinsMeet(hs, db.memberships, ids, i, j, account);
    assert hs[i] == gs[j] && hs[j] == gs[i];
    SwitchedAnswers(plan, ids, account, batch, db);
    MetOtherwise(plan, ids, account, gs[i], gs[j], other);
  }

  lemma SwitchedAnswers(plan: GroupPlan, ids: seq<int>, account: int, answer: seq<JoinRow>, db: Tables)
    requires plan.own.Unwindowed() && ids != [account]
    ensures var other := Answering(db, Switching(plan.own, ids, answer, db));
            SelectJoin(plan, ids, other) == answer && SelectJoin(plan, [account], other) == GroupByGroup(plan.own, [account], db)
  {
    hide GroupByGroup;
    assert answer[0..] == answer;
    var mine := GroupByGroup(plan.own, [account], db);
    assert mine[0..] == mine;
  }

  lemma MetOtherwise(plan: GroupPlan, ids: seq<int>, account: int, g: GroupRow, h: GroupRow, db: Tables)
    requires Lawful(db) && plan.own.Unwindowed() && account in ids && g != h
    requires Belongs(plan.own, account, g, db) && Belongs(plan.own, account, h, db)
    requires Meets(SelectJoin(plan, ids, db), h.id, g.id) && Meets(SelectJoin(plan, [account], db), g.id, h.id)
    ensures GroupsOf(SelectJoin(plan, ids, db), account) != NestedGroups(plan, account, db)
  {
    hide Lawful, SelectJoin, GroupsOf, Meets, Belongs;
    EachGroupOnce(plan, [account], account, db);
    GroupOrderExactly(plan, ids, account, db);
    MeetsOneWay(SelectJoin(plan, ids, db), g.id, h.id);
  }

  // ----- exactly when the order is settled

  /** Every account of the batch gets the list of its own query. */
  ghost predicate OwnLists(plan: GroupPlan, ids: seq<int>, db: Tables)
  {
    forall a :: a in ids ==> GroupsOf(SelectJoin(plan, ids, db), a) == NestedGroups(plan, a, db)
  }

  /** The batch is the account's own query, or the order terms decide every two groups of the account. */
  ghost predicate OrderSettled(own: Own<GroupRow>, ids: seq<int>, db: Tables)
  {
    forall a :: a in ids ==> ids == [a] || DecidesFor(own, a, db)
  }

  /** Behind every lawful database every account gets its groups in the order of its own query, if
      and only if the order terms decide every two groups of every account, or the batch has
      but that one account. The condition speaks of the tables and the query only. */
  lemma OrderSettledExactly(plan: GroupPlan, ids: seq<int>, db: Tables)
    requires Keyed(db) && plan.own.Unwindowed()
    ensures (forall answers :: Lawful(Answering(db, answers)) ==> OwnLists(plan, ids, Answering(db, answers)))
            <==> OrderSettled(plan.own, ids, db)
  {
    hide Keyed, Belongs, Tied, GroupsOf, SelectJoin, Arranged;
    if OrderSettled(plan.own, ids, db) {
      forall answers | Lawful(Answering(db, answers)) ensures OwnLists(plan, ids, Answering(db, answers)) {
        SettledAnyhow(plan.own, ids, db, answers);
        SettledLists(plan, ids, Answering(db, answers));
      }
    } else {
      var answers := UnsettledVaries(plan, ids, db);
      assert !OwnLists(plan, ids, Answering(db, answers));
    }
  }

  lemma SettledAnyhow(own: Own<GroupRow>, ids: seq<int>, db: Tables, answers: Answers)
    ensures OrderSettled(own, ids, Answering(db, answers)) <==> OrderSettled(own, ids, db)
  {
    forall a ensures DecidesFor(own, a, Answering(db, answers)) <==> DecidesFor(own, a, db) {
      hide Tied, HoldsAll;
    }
  }

  lemma SettledLists(plan: GroupPlan, ids: seq<int>, db: Tables)
    requires Lawful(db) && plan.own.Unwindowed() && OrderSettled(plan.own, ids, db)
    ensures OwnLists(plan, ids, db)
  {
    hide GroupsOf, SelectJoin, DecidesFor, Lawful;
    forall a | a in ids ensures GroupsOf(SelectJoin(plan, ids, db), a) == NestedGroups(plan, a, db) {
      if ids != [a] {
        DecidedOrder(plan, ids, a, db);
      }
    }
  }

  lemma UnsettledVaries(plan: GroupPlan, ids: seq<int>, db: Tables) returns (answers: Answers)
    requires Keyed(db) && plan.own.Unwindowed() && !OrderSettled(plan.own, ids, db)
    ensures Lawful(Answering(db, answers)) && !OwnLists(plan, ids, Answering(db, answers))
  {
    hide Keyed, Belongs, Tied, GroupsOf, SelectJoin, Arranged;
    var a :| a in ids && ids != [a] && !DecidesFor(plan.own, a, db);
    var g, h :| Belongs(plan.own, a, g, db) && Belongs(plan.own, a, h, db) && g != h && Tied(plan.own, g, h);
    answers := TiedGroupsVary(plan, ids, a, g, h, db);
  }
}
