/** Groups of a batch of accounts: one joined query, answered in whatever order the database
    likes, against the joined query of each account alone. */
module JoinGroups {
  import opened Wrappers
  import opened AccountSchema
  import opened Relational
  import opened JoinSpec
  import opened JoinBatches

  // ----- which rows a joined query answers with

  lemma {:induction false} MatchesJoined(g: GroupRow, ms: seq<(int, int)>, ids: seq<int>, row: JoinRow)
    ensures row in Matches(g, ms, ids) <==> row.1 == g && row.0 in ids && (row.0, g.id) in ms
  {
    if ms != [] {
      var n := |ms| - 1;
      assert ms == ms[..n] + [ms[n]];
      MatchesJoined(g, ms[..n], ids, row);
    }
  }

  lemma {:induction false} JoinRowsMembers(gs: seq<GroupRow>, ms: seq<(int, int)>, ids: seq<int>, row: JoinRow)
    ensures row in JoinRows(gs, ms, ids) <==> row.1 in gs && row.0 in ids && (row.0, row.1.id) in ms
  {
    if gs != [] {
      var n := |gs| - 1;
      assert gs == gs[..n] + [gs[n]];
      JoinRowsMembers(gs[..n], ms, ids, row);
      MatchesJoined(gs[n], ms, ids, row);
    }
  }

  /** The group is selected by the query and the account is a member of it. */
  ghost predicate Belongs(own: Own<GroupRow>, account: int, g: GroupRow, db: Tables)
  {
    g in db.groups && HoldsAll(own.preds, g) && (account, g.id) in db.memberships
  }

  lemma ArrangedMembers(own: Own<GroupRow>, ids: seq<int>, db: Tables, rows: seq<JoinRow>, row: JoinRow)
    requires Arranged(own, ids, db, rows)
    ensures row in rows <==> row.0 in ids && Belongs(own, row.0, row.1, db)
  {
    assert row in rows <==> row in multiset(rows);
    assert row in SelectedJoins(own, ids, db) <==> row in multiset(SelectedJoins(own, ids, db));
    JoinRowsMembers(Filter(own.preds, db.groups), db.memberships, ids, row);
    FilterMembers(own.preds, db.groups, row.1);
  }

  /** An ID stands for one group. */
  ghost predicate OneGroupPerID(rows: seq<JoinRow>)
  {
    forall i, j :: 0 <= i < |rows| && 0 <= j < |rows| && rows[i].1.id == rows[j].1.id ==> rows[i].1 == rows[j].1
  }

  lemma ArrangedIDs(own: Own<GroupRow>, ids: seq<int>, db: Tables, rows: seq<JoinRow>)
    requires Keyed(db) && Arranged(own, ids, db, rows)
    ensures OneGroupPerID(rows)
  {
    hide Arranged, Belongs;
    forall i, j | 0 <= i < |rows| && 0 <= j < |rows| && rows[i].1.id == rows[j].1.id ensures rows[i].1 == rows[j].1 {
      ArrangedMembers(own, ids, db, rows, rows[i]);
      ArrangedMembers(own, ids, db, rows, rows[j]);
      assert rows[i] in rows && rows[j] in rows;
      SameID(own, rows[i].0, rows[j].0, rows[i].1, rows[j].1, db);
    }
  }

  lemma SameID(own: Own<GroupRow>, a: int, b: int, g: GroupRow, h: GroupRow, db: Tables)
    requires Keyed(db) && Belongs(own, a, g, db) && Belongs(own, b, h, db) && g.id == h.id
    ensures g == h
  {
    var i, j :| 0 <= i < |db.groups| && 0 <= j < |db.groups| && db.groups[i] == g && db.groups[j] == h;
    assert GROUP_ID_KEY(db.groups[i]) == GROUP_ID_KEY(db.groups[j]);
  }

  // ----- the groups of one account, each once

  lemma {:induction false} KeepJoinedMembers(gs: seq<GroupRow>, rows: seq<JoinRow>, account: int, g: GroupRow)
    ensures g in KeepJoined(gs, rows, account) <==> g in gs && Joined(rows, account, g.id)
  {
    if gs != [] {
      var n := |gs| - 1;
      assert gs == gs[..n] + [gs[n]];
      KeepJoinedMembers(gs[..n], rows, account, g);
    }
  }

  lemma {:induction false} KeepJoinedUnique(gs: seq<GroupRow>, rows: seq<JoinRow>, account: int)
    requires Unique(GROUP_ID_KEY, gs)
    ensures Unique(GROUP_ID_KEY, KeepJoined(gs, rows, account))
  {
    if gs != [] {
      var n := |gs| - 1;
      KeepJoinedUnique(gs[..n], rows, account);
      forall x | x in KeepJoined(gs[..n], rows, account) ensures GROUP_ID_KEY(x) != GROUP_ID_KEY(gs[n]) {
        KeepJoinedMembers(gs[..n], rows, account, x);
        var k :| 0 <= k < n && gs[..n][k] == x;
        assert GROUP_ID_KEY(gs[k]) != GROUP_ID_KEY(gs[n]);
      }
    }
  }

  lemma {:induction false} AppearanceMembers(rows: seq<JoinRow>, g: GroupRow)
    requires OneGroupPerID(rows)
    ensures g in FirstAppearance(rows) <==> exists i :: 0 <= i < |rows| && rows[i].1 == g
  {
    if rows != [] {
      var n := |rows| - 1;
      var before := FirstAppearance(rows[..n]);
      AppearanceMembers(rows[..n], g);
      if i :| 0 <= i < n && rows[..n][i].1 == g {
        assert rows[i].1 == g;
      }
      if HasGroup(before, rows[n].1.id) {
        AppearanceIDs(rows[..n], rows[n].1.id);
        var i :| 0 <= i < n && rows[..n][i].1.id == rows[n].1.id;
        assert rows[i].1 == rows[n].1;
      }
      if i :| 0 <= i < |rows| && rows[i].1 == g {
        assert i < n ==> rows[..n][i].1 == g;
      }
    }
  }

  lemma GroupsOfMembers(rows: seq<JoinRow>, account: int, g: GroupRow)
    requires OneGroupPerID(rows)
    ensures g in GroupsOf(rows, account) <==> (account, g) in rows
  {
    KeepJoinedMembers(FirstAppearance(rows), rows, account, g);
    AppearanceMembers(rows, g);
    if Joined(rows, account, g.id) && g in FirstAppearance(rows) {
      var i :| 0 <= i < |rows| && rows[i].0 == account && rows[i].1.id == g.id;
      var k :| 0 <= k < |rows| && rows[k].1 == g;
      assert rows[i] == (account, g);
    }
    if (account, g) in rows {
      var i :| 0 <= i < |rows| && rows[i] == (account, g);
      assert rows[i].1 == g;
    }
  }

  lemma WholeAnswer(plan: GroupPlan, ids: seq<int>, db: Tables)
    requires Lawful(db) && plan.own.Unwindowed()
    ensures SelectJoin(plan, ids, db) == db.joined(plan.own, ids)
    ensures Keyed(db) && Arranged(plan.own, ids, db, SelectJoin(plan, ids, db))
  {
    hide Arranged;
    var rows := db.joined(plan.own, ids);
    assert rows[0..] == rows;
  }

  /** However the joined rows are arranged, an account gets exactly its groups, each once. */
  lemma ArrangedGroups(own: Own<GroupRow>, ids: seq<int>, account: int, db: Tables, rows: seq<JoinRow>)
    requires Keyed(db) && Arranged(own, ids, db, rows) && account in ids
    ensures Unique(GROUP_ID_KEY, GroupsOf(rows, account))
    ensures forall g :: g in GroupsOf(rows, account) <==> Belongs(own, account, g, db)
  {
    ArrangedIDs(own, ids, db, rows);
    hide Keyed, Belongs, Arranged, OneGroupPerID;
    AppearanceUnique(rows);
    KeepJoinedUnique(FirstAppearance(rows), rows, account);
    forall g ensures g in GroupsOf(rows, account) <==> Belongs(own, account, g, db) {
      GroupsOfMembers(rows, account, g);
      ArrangedMembers(own, ids, db, rows, (account, g));
    }
  }

  lemma EachGroupOnce(plan: GroupPlan, ids: seq<int>, account: int, db: Tables)
    requires Lawful(db) && plan.own.Unwindowed() && account in ids
    ensures var gs := GroupsOf(SelectJoin(plan, ids, db), account);
            Unique(GROUP_ID_KEY, gs) && forall g :: g in gs <==> Belongs(plan.own, account, g, db)
  {
    WholeAnswer(plan, ids, db);
    hide Lawful, Keyed, SelectJoin, Belongs, Arranged, Unique;
    ArrangedGroups(plan.own, ids, account, db, SelectJoin(plan, ids, db));
  }

  // ----- in which order

  /** A row of group g comes before every row of group h. */
  ghost predicate Meets(rows: seq<JoinRow>, g: int, h: int)
  {
    exists i :: 0 <= i < |rows| && rows[i].1.id == g && Clear(rows, i, h)
  }

  /** No row up to i is of group h. */
  predicate Clear(rows: seq<JoinRow>, i: int, h: int)
    requires i < |rows|
  {
    forall j :: 0 <= j <= i ==> rows[j].1.id != h
  }

  lemma MeetsOneWay(rows: seq<JoinRow>, g: int, h: int)
    ensures !(Meets(rows, g, h) && Meets(rows, h, g))
  {
  }

  lemma MeetsLonger(rows: seq<JoinRow>, r: JoinRow, g: int, h: int)
    requires Meets(rows, g, h)
    ensures Meets(rows + [r], g, h)
  {
    var x :| 0 <= x < |rows| && rows[x].1.id == g && Clear(rows, x, h);
    assert Clear(rows + [r], x, h);
  }

  lemma {:induction false} MeetsSomehow(rows: seq<JoinRow>, g: int, h: int)
    requires g != h && (HasJoin(rows, g) || HasJoin(rows, h))
    ensures Meets(rows, g, h) || Meets(rows, h, g)
  {
    var n := |rows| - 1;
    assert rows == rows[..n] + [rows[n]];
    if HasJoin(rows[..n], g) || HasJoin(rows[..n], h) {
      MeetsSomehow(rows[..n], g, h);
      if Meets(rows[..n], g, h) {
        MeetsLonger(rows[..n], rows[n], g, h);
      } else {
        MeetsLonger(rows[..n], rows[n], h, g);
      }
    } else {
      forall j | 0 <= j < n ensures rows[j].1.id != g && rows[j].1.id != h {
        assert rows[..n][j] == rows[j];
      }
      if rows[n].1.id == g {
        assert Clear(rows, n, h);
      } else {
        HasJoinLast(rows, g);
        HasJoinLast(rows, h);
        assert rows[n].1.id == h && Clear(rows, n, g);
      }
    }
  }

  lemma {:induction false} AppearanceInOrder(rows: seq<JoinRow>, i: nat, j: nat)
    requires i < j < |FirstAppearance(rows)|
    ensures Meets(rows, FirstAppearance(rows)[i].id, FirstAppearance(rows)[j].id)
    decreases |rows|
  {
    var n := |rows| - 1;
    var before := FirstAppearance(rows[..n]);
    assert rows == rows[..n] + [rows[n]];
    if j < |before| {
      AppearanceInOrder(rows[..n], i, j);
      MeetsLonger(rows[..n], rows[n], before[i].id, before[j].id);
    } else {
      var h := rows[n].1.id;
      AppearanceIDs(rows[..n], h);
      AppearanceIDs(rows[..n], before[i].id);
      assert HasGroup(before, before[i].id);
      var x :| 0 <= x < n && rows[..n][x].1.id == before[i].id;
      forall k | 0 <= k <= x ensures rows[k].1.id != h {
        assert rows[..n][k] == rows[k];
      }
      assert Clear(rows, x, h);
    }
  }

  lemma {:induction false} KeepJoinedPlaces(gs: seq<GroupRow>, rows: seq<JoinRow>, account: int, i: nat, j: nat) returns (x: nat, y: nat)
    requires i < j < |KeepJoined(gs, rows, account)|
    ensures x < y < |gs| && gs[x] == KeepJoined(gs, rows, account)[i] && gs[y] == KeepJoined(gs, rows, account)[j]
    decreases |gs|
  {
    var n := |gs| - 1;
    var kept := KeepJoined(gs[..n], rows, account);
    if j < |kept| {
      x, y := KeepJoinedPlaces(gs[..n], rows, account, i, j);
    } else {
      KeepJoinedMembers(gs[..n], rows, account, kept[i]);
      assert kept[i] in kept;
      x :| 0 <= x < n && gs[..n][x] == kept[i];
      y := n;
    }
  }

  lemma GroupsInOrder(rows: seq<JoinRow>, account: int, i: nat, j: nat)
    requires i < j < |GroupsOf(rows, account)|
    ensures var gs := GroupsOf(rows, account); Meets(rows, gs[i].id, gs[j].id) && !Meets(rows, gs[j].id, gs[i].id)
  {
    var x, y := KeepJoinedPlaces(FirstAppearance(rows), rows, account, i, j);
    AppearanceInOrder(rows, x, y);
    MeetsOneWay(rows, GroupsOf(rows, account)[i].id, GroupsOf(rows, account)[j].id);
  }

  /** A list without repetition in which earlier groups are met first. */
  ghost predicate InMeetOrder(gs: seq<GroupRow>, rows: seq<JoinRow>)
  {
    && Unique(GROUP_ID_KEY, gs)
    && forall i, j :: 0 <= i < j < |gs| ==> Meets(rows, gs[i].id, gs[j].id) && !Meets(rows, gs[j].id, gs[i].id)
  }

  ghost predicate SameMembers(a: seq<GroupRow>, b: seq<GroupRow>)
  {
    forall g :: g in a <==> g in b
  }

  lemma TailInMeetOrder(gs: seq<GroupRow>, rows: seq<JoinRow>)
    requires gs != [] && InMeetOrder(gs, rows)
    ensures InMeetOrder(gs[1..], rows) && forall g :: g in gs[1..] <==> g in gs && g != gs[0]
  {
    hide Meets;
    forall i, j | 0 <= i < j < |gs[1..]| ensures GROUP_ID_KEY(gs[1..][i]) != GROUP_ID_KEY(gs[1..][j]) {
      assert GROUP_ID_KEY(gs[i + 1]) != GROUP_ID_KEY(gs[j + 1]);
    }
    forall k | 0 < k < |gs| ensures gs[k] != gs[0] && gs[k] in gs[1..] {
      assert GROUP_ID_KEY(gs[0]) != GROUP_ID_KEY(gs[k]);
      assert gs[k] == gs[1..][k - 1];
    }
  }

  /** The orders in which two answers meet two groups agree. */
  ghost predicate MetAlike(a: seq<JoinRow>, b: seq<JoinRow>, gs: seq<GroupRow>)
  {
    forall g, h :: g in gs && h in gs && g != h ==> (Meets(a, g.id, h.id) <==> Meets(b, g.id, h.id))
  }

  lemma SameHead(a: seq<GroupRow>, b: seq<GroupRow>, ra: seq<JoinRow>, rb: seq<JoinRow>)
    requires a != [] && b != [] && InMeetOrder(a, ra) && InMeetOrder(b, rb) && SameMembers(a, b) && MetAlike(ra, rb, a)
    ensures a[0] == b[0]
  {
    hide Meets;
    assert a[0] in b && b[0] in a;
    var p :| 0 <= p < |b| && b[p] == a[0];
    var q :| 0 <= q < |a| && a[q] == b[0];
  }

  lemma NoMember(gs: seq<GroupRow>)
    ensures (forall g :: g !in gs) <==> gs == []
  {
    if gs != [] {
      assert gs[0] in gs;
    }
  }

  lemma {:induction false} SameMeetOrder(a: seq<GroupRow>, b: seq<GroupRow>, ra: seq<JoinRow>, rb: seq<JoinRow>)
    requires InMeetOrder(a, ra) && InMeetOrder(b, rb) && SameMembers(a, b) && MetAlike(ra, rb, a)
    ensures a == b
    decreases |a|
  {
    hide InMeetOrder;
    NoMember(a);
    NoMember(b);
    if a != [] {
      assert a[0] in a;
      SameHead(a, b, ra, rb);
      TailInMeetOrder(a, ra);
      TailInMeetOrder(b, rb);
      SameMeetOrder(a[1..], b[1..], ra, rb);
      assert a == [a[0]] + a[1..] && b == [b[0]] + b[1..];
    }
  }

  lemma EqualIsMetAlike(gs: seq<GroupRow>, ra: seq<JoinRow>, rb: seq<JoinRow>)
    requires InMeetOrder(gs, ra) && InMeetOrder(gs, rb)
    ensures MetAlike(ra, rb, gs)
  {
    hide Meets;
    forall g, h | g in gs && h in gs && g != h ensures Meets(ra, g.id, h.id) <==> Meets(rb, g.id, h.id) {
      var i, j :| 0 <= i < |gs| && 0 <= j < |gs| && gs[i] == g && gs[j] == h;
      assert i < j || j < i;
    }
  }

  lemma ArrangedInMeetOrder(own: Own<GroupRow>, ids: seq<int>, account: int, db: Tables, rows: seq<JoinRow>)
    requires Keyed(db) && Arranged(own, ids, db, rows) && account in ids
    ensures InMeetOrder(GroupsOf(rows, account), rows)
  {
    ArrangedGroups(own, ids, account, db, rows);
    hide GroupsOf, Meets, Belongs, Keyed, Arranged;
    forall i, j | 0 <= i < j < |GroupsOf(rows, account)|
      ensures Meets(rows, GroupsOf(rows, account)[i].id, GroupsOf(rows, account)[j].id)
      ensures !Meets(rows, GroupsOf(rows, account)[j].id, GroupsOf(rows, account)[i].id)
    {
      GroupsInOrder(rows, account, i, j);
    }
  }

  /** Two legal answers list the groups of an account in the same order if and only if for every
      two of its groups they meet the same one first. */
  lemma ArrangedOrderExactly(own: Own<GroupRow>, ids: seq<int>, account: int, db: Tables, batch: seq<JoinRow>, mine: seq<JoinRow>)
    requires Keyed(db) && Arranged(own, ids, db, batch) && Arranged(own, [account], db, mine) && account in ids
    ensures GroupsOf(batch, account) == GroupsOf(mine, account) <==> MetAlike(batch, mine, GroupsOf(mine, account))
  {
    ArrangedGroups(own, ids, account, db, batch);
    ArrangedGroups(own, [account], account, db, mine);
    ArrangedInMeetOrder(own, ids, account, db, batch);
    ArrangedInMeetOrder(own, [account], account, db, mine);
    hide GroupsOf, Belongs, Keyed, Arranged, InMeetOrder, MetAlike;
    var listed, shared := GroupsOf(mine, account), GroupsOf(batch, account);
    if shared == listed {
      EqualIsMetAlike(listed, batch, mine);
    } else if MetAlike(batch, mine, listed) {
      SameForMembers(batch, mine, listed, shared);
      SameMeetOrder(shared, listed, batch, mine);
    }
  }

  lemma GroupOrderExactly(plan: GroupPlan, ids: seq<int>, account: int, db: Tables)
    requires Lawful(db) && plan.own.Unwindowed() && account in ids
    ensures GroupsOf(SelectJoin(plan, ids, db), account) == NestedGroups(plan, account, db) <==>
            MetAlike(SelectJoin(plan, ids, db), SelectJoin(plan, [account], db), NestedGroups(plan, account, db))
  {
    WholeAnswer(plan, ids, db);
    WholeAnswer(plan, [account], db);
    hide Lawful, Keyed, Arranged, SelectJoin, GroupsOf, MetAlike;
    ArrangedOrderExactly(plan.own, ids, account, db, SelectJoin(plan, ids, db), SelectJoin(plan, [account], db));
  }

  lemma SameForMembers(ra: seq<JoinRow>, rb: seq<JoinRow>, gs: seq<GroupRow>, hs: seq<GroupRow>)
    requires MetAlike(ra, rb, gs) && SameMembers(gs, hs)
    ensures MetAlike(ra, rb, hs)
  {
  }

  /** The order terms do not tell the groups apart. */
  predicate Tied(own: Own<GroupRow>, g: GroupRow, h: GroupRow)
  {
    AtMost(own.order, g, h) && AtMost(own.order, h, g)
  }

  /** The order terms decide every two selected groups of the account. */
  ghost predicate DecidesFor(own: Own<GroupRow>, account: int, db: Tables)
  {
    forall g, h :: Belongs(own, account, g, db) && Belongs(own, account, h, db) && g != h ==> !Tied(own, g, h)
  }

  lemma MetIsAtMost(own: Own<GroupRow>, ids: seq<int>, account: int, db: Tables, rows: seq<JoinRow>, g: GroupRow, h: GroupRow)
    requires Keyed(db) && Arranged(own, ids, db, rows) && account in ids
    requires Belongs(own, account, g, db) && Belongs(own, account, h, db) && Meets(rows, g.id, h.id)
    ensures AtMost(own.order, g, h)
  {
    ArrangedMembers(own, ids, db, rows, (account, g));
    ArrangedMembers(own, ids, db, rows, (account, h));
    ArrangedIDs(own, ids, db, rows);
    var x :| 0 <= x < |rows| && rows[x].1.id == g.id && Clear(rows, x, h.id);
    var y :| 0 <= y < |rows| && rows[y] == (account, h);
    var z :| 0 <= z < |rows| && rows[z] == (account, g);
    assert rows[x].1 == g;
    assert x < y;
  }

  lemma DecidedMeets(own: Own<GroupRow>, ids: seq<int>, account: int, db: Tables, rows: seq<JoinRow>, g: GroupRow, h: GroupRow)
    requires Keyed(db) && Arranged(own, ids, db, rows) && account in ids && DecidesFor(own, account, db) && g != h
    requires Belongs(own, account, g, db) && Belongs(own, account, h, db)
    ensures Meets(rows, g.id, h.id) <==> AtMost(own.order, g, h)
  {
    if g.id == h.id {
      SameID(own, account, account, g, h, db);
    }
    ArrangedMembers(own, ids, db, rows, (account, g));
    var z :| 0 <= z < |rows| && rows[z] == (account, g);
    assert HasJoin(rows, g.id);
    MeetsSomehow(rows, g.id, h.id);
    if Meets(rows, g.id, h.id) {
      MetIsAtMost(own, ids, account, db, rows, g, h);
    } else {
      MetIsAtMost(own, ids, account, db, rows, h, g);
    }
  }

  /** With order terms that decide every two groups of an account, no arrangement shows. */
  lemma DecidedLists(own: Own<GroupRow>, ids: seq<int>, account: int, db: Tables, batch: seq<JoinRow>, mine: seq<JoinRow>)
    requires Keyed(db) && Arranged(own, ids, db, batch) && Arranged(own, [account], db, mine) && account in ids
    requires DecidesFor(own, account, db)
    ensures GroupsOf(batch, account) == GroupsOf(mine, account)
  {
    hide GroupsOf, Arranged, Meets, Belongs, DecidesFor, Keyed;
    ArrangedGroups(own, [account], account, db, mine);
    ArrangedOrderExactly(own, ids, account, db, batch, mine);
    forall g, h | g in GroupsOf(mine, account) && h in GroupsOf(mine, account) && g != h
      ensures Meets(batch, g.id, h.id) <==> Meets(mine, g.id, h.id)
    {
      DecidedMeets(own, ids, account, db, batch, g, h);
      DecidedMeets(own, [account], account, db, mine, g, h);
    }
  }

  lemma DecidedOrder(plan: GroupPlan, ids: seq<int>, account: int, db: Tables)
    requires Lawful(db) && plan.own.Unwindowed() && account in ids && DecidesFor(plan.own, account, db)
    ensures GroupsOf(SelectJoin(plan, ids, db), account) == NestedGroups(plan, account, db)
  {
    WholeAnswer(plan, ids, db);
    WholeAnswer(plan, [account], db);
    hide Lawful, Keyed, Arranged, SelectJoin, GroupsOf, DecidesFor;
    DecidedLists(plan.own, ids, account, db, SelectJoin(plan, ids, db), SelectJoin(plan, [account], db));
  }
}
