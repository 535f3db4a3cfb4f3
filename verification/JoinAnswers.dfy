/** What joined rows look like when the rows of a group stand together, and what a window then
    leaves of them. */
module JoinAnswers {
  import opened Wrappers
  import opened AccountSchema
  import opened Relational
  import opened JoinSpec
  import opened JoinBatches
  import opened JoinGroups

  // ----- answers that come group by group

  /** The answer of a database that joins group by group, in the order of the groups. */
  function GroupByGroup(own: Own<GroupRow>, ids: seq<int>, db: Tables): seq<JoinRow>
  {
    JoinRows(Arrange(own.order, Filter(own.preds, db.groups)), db.memberships, ids)
  }

  lemma {:induction false} JoinRowsConcat(gs: seq<GroupRow>, hs: seq<GroupRow>, ms: seq<(int, int)>, ids: seq<int>)
    ensures JoinRows(gs + hs, ms, ids) == JoinRows(gs, ms, ids) + JoinRows(hs, ms, ids)
    decreases |hs|
  {
    hide Matches;
    if hs == [] {
      assert gs + hs == gs;
    } else {
      var n := |hs| - 1;
      var init := gs + hs[..n];
      assert (gs + hs)[..|gs| + n] == init && (gs + hs)[|gs| + n] == hs[n];
      JoinRowsConcat(gs, hs[..n], ms, ids);
      assert JoinRows(gs + hs, ms, ids) == JoinRows(init, ms, ids) + Matches(hs[n], ms, ids);
    }
  }

  lemma JoinRowsOne(g: GroupRow, ms: seq<(int, int)>, ids: seq<int>)
    ensures JoinRows([g], ms, ids) == Matches(g, ms, ids)
  {
    assert [g][..0] == [];
  }

  lemma {:induction false} InsertedJoins(order: seq<GroupRow -> int>, g: GroupRow, gs: seq<GroupRow>, ms: seq<(int, int)>, ids: seq<int>)
    ensures multiset(JoinRows(Insert(order, g, gs), ms, ids)) == multiset(Matches(g, ms, ids)) + multiset(JoinRows(gs, ms, ids))
    decreases |gs|
  {
    JoinRowsOne(g, ms, ids);
    if gs == [] || AtMost(order, g, gs[0]) {
      JoinRowsConcat([g], gs, ms, ids);
    } else {
      InsertedJoins(order, g, gs[1..], ms, ids);
      JoinRowsConcat([gs[0]], Insert(order, g, gs[1..]), ms, ids);
      JoinRowsConcat([gs[0]], gs[1..], ms, ids);
      assert gs == [gs[0]] + gs[1..];
    }
  }

  lemma {:induction false} ArrangedJoins(order: seq<GroupRow -> int>, gs: seq<GroupRow>, ms: seq<(int, int)>, ids: seq<int>)
    ensures multiset(JoinRows(Arrange(order, gs), ms, ids)) == multiset(JoinRows(gs, ms, ids))
    decreases |gs|
  {
    if gs != [] {
      ArrangedJoins(order, gs[1..], ms, ids);
      InsertedJoins(order, gs[0], Arrange(order, gs[1..]), ms, ids);
      JoinRowsConcat([gs[0]], gs[1..], ms, ids);
      JoinRowsOne(gs[0], ms, ids);
      assert gs == [gs[0]] + gs[1..];
    }
  }

  lemma {:induction false} AtMostReflexive(order: seq<GroupRow -> int>, g: GroupRow)
    ensures AtMost(order, g, g)
  {
    if order != [] {
      AtMostReflexive(order[1..], g);
    }
  }

  lemma {:induction false} SortedJoins(order: seq<GroupRow -> int>, gs: seq<GroupRow>, ms: seq<(int, int)>, ids: seq<int>)
    requires Sorted(order, gs)
    ensures var rows := JoinRows(gs, ms, ids); forall i, j :: 0 <= i < j < |rows| ==> AtMost(order, rows[i].1, rows[j].1)
  {
    if gs != [] {
      var n := |gs| - 1;
      SortedJoins(order, gs[..n], ms, ids);
      var before, more := JoinRows(gs[..n], ms, ids), Matches(gs[n], ms, ids);
      var rows := before + more;
      forall i, j | 0 <= i < j < |rows| && j >= |before| ensures AtMost(order, rows[i].1, rows[j].1) {
        MatchesJoined(gs[n], ms, ids, rows[j]);
        assert rows[j] in more;
        if i < |before| {
          assert rows[i] in before;
          JoinRowsMembers(gs[..n], ms, ids, rows[i]);
          var x :| 0 <= x < n && gs[..n][x] == rows[i].1;
          assert gs[x] == rows[i].1;
        } else {
          assert rows[i] in more;
          MatchesJoined(gs[n], ms, ids, rows[i]);
          AtMostReflexive(order, gs[n]);
        }
      }
    }
  }

  /** Answering group by group is legal. */
  lemma GroupByGroupIsArranged(own: Own<GroupRow>, ids: seq<int>, db: Tables)
    ensures Arranged(own, ids, db, GroupByGroup(own, ids, db))
  {
    var gs := Filter(own.preds, db.groups);
    ArrangedJoins(own.order, gs, db.memberships, ids);
    ArrangeSorted(own.order, gs);
    SortedJoins(own.order, Arrange(own.order, gs), db.memberships, ids);
  }

  lemma UniqueLast(gs: seq<GroupRow>, x: GroupRow)
    requires gs != [] && Unique(GROUP_ID_KEY, gs) && x in gs[..|gs| - 1]
    ensures x.id != gs[|gs| - 1].id
  {
    var k :| 0 <= k < |gs| - 1 && gs[k] == x;
    assert GROUP_ID_KEY(gs[k]) != GROUP_ID_KEY(gs[|gs| - 1]);
  }

  /** The rows of each group stand together, and no row is repeated. */
  ghost predicate Contiguous(rows: seq<JoinRow>)
  {
    && (forall i, j :: 0 <= i < j < |rows| ==> rows[i] != rows[j])
    && (forall i, j, k :: 0 <= i < j < k < |rows| && rows[i].1.id == rows[k].1.id ==> rows[j].1.id == rows[i].1.id)
    && OneGroupPerID(rows)
  }

  lemma ContiguousRange(rows: seq<JoinRow>, lo: nat, hi: nat)
    requires Contiguous(rows) && lo <= hi <= |rows|
    ensures Contiguous(rows[lo..hi])
  {
    var part := rows[lo..hi];
    assert forall i :: 0 <= i < |part| ==> part[i] == rows[lo + i];
  }

  lemma {:induction false} MatchesDistinct(g: GroupRow, ms: seq<(int, int)>, ids: seq<int>)
    requires forall i, j :: 0 <= i < j < |ms| ==> ms[i] != ms[j]
    ensures forall i, j :: 0 <= i < j < |Matches(g, ms, ids)| ==> Matches(g, ms, ids)[i] != Matches(g, ms, ids)[j]
  {
    if ms != [] {
      var n := |ms| - 1;
      MatchesDistinct(g, ms[..n], ids);
      var before, last := Matches(g, ms[..n], ids), (ms[n].0, g);
      if ms[n].1 == g.id {
        MatchesJoined(g, ms[..n], ids, last);
        assert last !in before by {
          assert forall k :: 0 <= k < n ==> ms[..n][k] == ms[k] != ms[n];
        }
      }
      forall i, j | 0 <= i < j < |Matches(g, ms, ids)| ensures Matches(g, ms, ids)[i] != Matches(g, ms, ids)[j] {
        assert before[i] in before;
      }
    }
  }

  lemma {:induction false} JoinsContiguous(gs: seq<GroupRow>, ms: seq<(int, int)>, ids: seq<int>)
    requires Unique(GROUP_ID_KEY, gs) && forall i, j :: 0 <= i < j < |ms| ==> ms[i] != ms[j]
    ensures Contiguous(JoinRows(gs, ms, ids))
  {
    if gs != [] {
      var n := |gs| - 1;
      JoinsContiguous(gs[..n], ms, ids);
      MatchesDistinct(gs[n], ms, ids);
      var before, more := JoinRows(gs[..n], ms, ids), Matches(gs[n], ms, ids);
      forall i | 0 <= i < |before| ensures before[i].1.id != gs[n].id {
        assert before[i] in before;
        JoinRowsMembers(gs[..n], ms, ids, before[i]);
        UniqueLast(gs, before[i].1);
      }
      forall i | 0 <= i < |more| ensures more[i].1 == gs[n] {
        assert more[i] in more;
        MatchesJoined(gs[n], ms, ids, more[i]);
      }
      JoinedContiguous(before, more, gs[n]);
    }
  }

  lemma JoinedContiguous(before: seq<JoinRow>, more: seq<JoinRow>, g: GroupRow)
    requires Contiguous(before) && forall i, j :: 0 <= i < j < |more| ==> more[i] != more[j]
    requires forall i :: 0 <= i < |before| ==> before[i].1.id != g.id
    requires forall i :: 0 <= i < |more| ==> more[i].1 == g
    ensures Contiguous(before + more)
  {
    var rows := before + more;
    assert forall i :: 0 <= i < |rows| ==> rows[i] == if i < |before| then before[i] else more[i - |before|];
  }

  function Accounts(rows: seq<JoinRow>): (ks: seq<Option<int>>)
    ensures |ks| == |rows| && forall i :: 0 <= i < |rows| ==> ks[i] == Some(rows[i].0)
  {
    seq(|rows|, i requires 0 <= i < |rows| => Some(rows[i].0))
  }

  function GroupsIn(rows: seq<JoinRow>): (gs: seq<GroupRow>)
    ensures |gs| == |rows| && forall i :: 0 <= i < |rows| ==> gs[i] == rows[i].1
  {
    seq(|rows|, i requires 0 <= i < |rows| => rows[i].1)
  }

  lemma {:induction false} KeepJoinedWith(gs: seq<GroupRow>, rows: seq<JoinRow>, r: JoinRow, account: int)
    requires r.0 != account || !HasGroup(gs, r.1.id)
    ensures KeepJoined(gs, rows + [r], account) == KeepJoined(gs, rows, account)
    decreases |gs|
  {
    if gs != [] {
      var n := |gs| - 1;
      assert r.0 != account || gs[n].id != r.1.id;
      if r.0 == account {
        NoGroupBefore(gs, n, r.1.id);
      }
      KeepJoinedWith(gs[..n], rows, r, account);
      JoinedMore(rows, r, account, gs[n].id);
    }
  }

  lemma NoGroupBefore(gs: seq<GroupRow>, n: nat, id: int)
    requires n <= |gs| && !HasGroup(gs, id)
    ensures !HasGroup(gs[..n], id)
  {
    forall k | 0 <= k < n ensures gs[..n][k].id != id {
      assert gs[..n][k] == gs[k];
    }
  }

  lemma {:induction false} LastAppearance(rows: seq<JoinRow>, r: JoinRow)
    requires Contiguous(rows + [r]) && HasGroup(FirstAppearance(rows), r.1.id)
    ensures rows != [] && rows[|rows| - 1].1 == r.1
  {
    var all := rows + [r];
    AppearanceIDs(rows, r.1.id);
    var i :| 0 <= i < |rows| && rows[i].1.id == r.1.id;
    assert all[i] == rows[i] && all[|rows|] == r && all[|rows| - 1] == rows[|rows| - 1];
  }

  lemma {:induction false} AppearanceEndsWithLast(rows: seq<JoinRow>)
    requires rows != [] && Contiguous(rows)
    ensures var f := FirstAppearance(rows); f != [] && f[|f| - 1] == rows[|rows| - 1].1
    decreases |rows|
  {
    var n := |rows| - 1;
    var before := FirstAppearance(rows[..n]);
    assert rows == rows[..n] + [rows[n]];
    if HasGroup(before, rows[n].1.id) {
      LastAppearance(rows[..n], rows[n]);
      ContiguousRange(rows, 0, n);
      assert rows[0..n] == rows[..n];
      AppearanceEndsWithLast(rows[..n]);
    }
  }

  lemma LastKept<T>(kept: seq<T>, x: T, before: bool, now: bool, after: bool)
    requires after == (before || now) && !(before && now)
    ensures kept + (if after then [x] else []) == kept + (if before then [x] else []) + (if now then [x] else [])
  {
  }

  lemma KeepJoinedLast(gs: seq<GroupRow>, rows: seq<JoinRow>, account: int)
    requires gs != []
    ensures var n := |gs| - 1;
            KeepJoined(gs, rows, account) ==
            KeepJoined(gs[..n], rows, account) + if Joined(rows, account, gs[n].id) then [gs[n]] else []
  {
  }

  /** One more row of a group that is already there: it is the last group met. */
  lemma SameGroupAgain(init: seq<JoinRow>, r: JoinRow, account: int)
    requires Contiguous(init + [r]) && Contiguous(init) && HasGroup(FirstAppearance(init), r.1.id)
    ensures GroupsOf(init + [r], account) == GroupsOf(init, account) + if r.0 == account then [r.1] else []
  {
    hide Contiguous, Joined, HasGroup, FirstAppearance, KeepJoined, Unique;
    LastAppearance(init, r);
    AppearanceEndsWithLast(init);
    AppearanceUnique(init);
    AppearanceAgain(init, r);
    var f := FirstAppearance(init);
    LastOfUnique(f);
    NotYetJoined(init, r);
    var head := f[..|f| - 1];
    KeepJoinedWith(head, init, r, account);
    KeepJoinedLast(f, init, account);
    KeepJoinedLast(f, init + [r], account);
    JoinedMore(init, r, account, r.1.id);
    LastKept(KeepJoined(head, init, account), r.1, Joined(init, account, r.1.id), r.0 == account, Joined(init + [r], account, r.1.id));
    assert f + [] == f;
  }

  lemma AppearanceAgain(init: seq<JoinRow>, r: JoinRow)
    ensures FirstAppearance(init + [r]) ==
            FirstAppearance(init) + if HasGroup(FirstAppearance(init), r.1.id) then [] else [r.1]
  {
    assert (init + [r])[..|init|] == init;
  }

  /** The first row of a group: its group is met last. */
  lemma NewGroup(init: seq<JoinRow>, r: JoinRow, account: int)
    requires !HasGroup(FirstAppearance(init), r.1.id)
    ensures GroupsOf(init + [r], account) == GroupsOf(init, account) + if r.0 == account then [r.1] else []
  {
    var f := FirstAppearance(init);
    AppearanceIDs(init, r.1.id);
    AppearanceAgain(init, r);
    KeepJoinedWith(f, init, r, account);
    NotJoinedBefore(init, account, r.1.id);
    JoinedMore(init, r, account, r.1.id);
    hide Joined, HasGroup, FirstAppearance, HasJoin;
    assert (f + [r.1])[..|f|] == f;
  }

  /** Where the rows of a group stand together, an account's groups are its rows, in their order. */
  lemma {:induction false} GroupsOfContiguous(rows: seq<JoinRow>, account: int)
    requires Contiguous(rows)
    ensures GroupsOf(rows, account) == GroupsIn(Pick(rows, Accounts(rows), account))
    decreases |rows|
  {
    if rows != [] {
      var n := |rows| - 1;
      var init, r := rows[..n], rows[n];
      assert rows == init + [r] && rows[0..n] == init;
      ContiguousRange(rows, 0, n);
      GroupsOfContiguous(init, account);
      PickLastJoin(init, r, account);
      hide *;
      if HasGroup(FirstAppearance(init), r.1.id) {
        SameGroupAgain(init, r, account);
      } else {
        NewGroup(init, r, account);
      }
      GroupsInConcat(Pick(init, Accounts(init), account), r);
    } else {
      assert FirstAppearance(rows) == [];
    }
  }

  lemma PickLastJoin(init: seq<JoinRow>, r: JoinRow, account: int)
    ensures Pick(init + [r], Accounts(init + [r]), account) ==
            Pick(init, Accounts(init), account) + if r.0 == account then [r] else []
  {
    var rows := init + [r];
    assert rows[..|init|] == init && Accounts(rows)[..|init|] == Accounts(init);
  }

  lemma GroupsInConcat(rows: seq<JoinRow>, r: JoinRow)
    ensures GroupsIn(rows + [r]) == GroupsIn(rows) + [r.1]
    ensures GroupsIn(rows + []) == GroupsIn(rows) + []
  {
    assert rows + [] == rows;
  }

  lemma LastOfUnique(gs: seq<GroupRow>)
    requires gs != [] && Unique(GROUP_ID_KEY, gs)
    ensures !HasGroup(gs[..|gs| - 1], gs[|gs| - 1].id)
  {
    var init := gs[..|gs| - 1];
    forall k | 0 <= k < |init| ensures init[k].id != gs[|gs| - 1].id {
      assert GROUP_ID_KEY(gs[k]) != GROUP_ID_KEY(gs[|gs| - 1]);
    }
  }

  lemma NotYetJoined(rows: seq<JoinRow>, r: JoinRow)
    requires Contiguous(rows + [r])
    ensures !Joined(rows, r.0, r.1.id)
  {
    var all := rows + [r];
    forall i | 0 <= i < |rows| ensures !(rows[i].0 == r.0 && rows[i].1.id == r.1.id) {
      assert all[i] == rows[i] && all[|rows|] == r;
    }
  }

  lemma NotJoinedBefore(rows: seq<JoinRow>, account: int, group: int)
    requires !HasJoin(rows, group)
    ensures !Joined(rows, account, group)
  {
  }

  // ----- windows on answers that come group by group

  lemma {:induction false} MatchesOfOne(g: GroupRow, ms: seq<(int, int)>, ids: seq<int>, account: int)
    requires account in ids
    ensures Matches(g, ms, [account]) == Pick(Matches(g, ms, ids), Accounts(Matches(g, ms, ids)), account)
  {
    if ms != [] {
      var n := |ms| - 1;
      MatchesOfOne(g, ms[..n], ids, account);
      var before := Matches(g, ms[..n], ids);
      if ms[n].1 == g.id && ms[n].0 in ids {
        var all := before + [(ms[n].0, g)];
        assert all[..|before|] == before && Accounts(all)[..|before|] == Accounts(before);
      } else {
        assert before + [] == before;
      }
    }
  }

  lemma {:induction false} JoinsOfOne(gs: seq<GroupRow>, ms: seq<(int, int)>, ids: seq<int>, account: int)
    requires account in ids
    ensures JoinRows(gs, ms, [account]) == Pick(JoinRows(gs, ms, ids), Accounts(JoinRows(gs, ms, ids)), account)
  {
    if gs != [] {
      var n := |gs| - 1;
      JoinsOfOne(gs[..n], ms, ids, account);
      MatchesOfOne(gs[n], ms, ids, account);
      var before, more := JoinRows(gs[..n], ms, ids), Matches(gs[n], ms, ids);
      PickConcat(before, Accounts(before), more, Accounts(more), account);
      assert Accounts(before + more) == Accounts(before) + Accounts(more);
    }
  }

  /** The primary key of account_groups. */
  ghost predicate DistinctMemberships(db: Tables)
  {
    forall i, j :: 0 <= i < j < |db.memberships| ==> db.memberships[i] != db.memberships[j]
  }

  lemma GroupByGroupContiguous(own: Own<GroupRow>, ids: seq<int>, db: Tables)
    requires Keyed(db) && DistinctMemberships(db)
    ensures Contiguous(GroupByGroup(own, ids, db))
  {
    FilterUnique(GROUP_ID_KEY, own.preds, db.groups);
    ArrangeUnique(GROUP_ID_KEY, own.order, Filter(own.preds, db.groups));
    JoinsContiguous(Arrange(own.order, Filter(own.preds, db.groups)), db.memberships, ids);
  }

  lemma WindowAccounts(own: Own<GroupRow>, rows: seq<JoinRow>)
    ensures Accounts(Window(own, rows)) == Window(own, Accounts(rows))
  {
  }

  lemma {:induction false} PickAllOfOne(rows: seq<JoinRow>, account: int)
    requires forall i :: 0 <= i < |rows| ==> rows[i].0 == account
    ensures Pick(rows, Accounts(rows), account) == rows
    decreases |rows|
  {
    if rows != [] {
      var n := |rows| - 1;
      var ks := Accounts(rows);
      assert ks[..n] == Accounts(rows[..n]) && ks[n] == Some(account);
      PickAllOfOne(rows[..n], account);
      assert Pick(rows, ks, account) == rows[..n] + [rows[n]];
    }
  }

  lemma {:induction false} PickedAccount(rows: seq<JoinRow>, account: int)
    ensures forall i :: 0 <= i < |Pick(rows, Accounts(rows), account)| ==> Pick(rows, Accounts(rows), account)[i].0 == account
    decreases |rows|
  {
    if rows != [] {
      var n := |rows| - 1;
      assert Accounts(rows)[..n] == Accounts(rows[..n]);
      PickedAccount(rows[..n], account);
    }
  }

  /** Rows of one account are told apart by their groups. */
  lemma SameGroupsIn(a: seq<JoinRow>, b: seq<JoinRow>, account: int)
    requires forall i :: 0 <= i < |a| ==> a[i].0 == account
    requires forall i :: 0 <= i < |b| ==> b[i].0 == account
    ensures GroupsIn(a) == GroupsIn(b) <==> a == b
  {
    if GroupsIn(a) == GroupsIn(b) {
      forall i | 0 <= i < |a| ensures a[i] == b[i] {
        assert GroupsIn(a)[i] == GroupsIn(b)[i];
      }
    }
  }

  lemma WindowedGroups(own: Own<GroupRow>, rows: seq<JoinRow>, account: int)
    requires Contiguous(rows)
    ensures var kept := Window(own, rows);
            GroupsOf(kept, account) == GroupsIn(Pick(kept, Accounts(kept), account))
  {
    WindowIsRange(own, rows);
    ContiguousRange(rows, Low(own, |rows|), High(own, |rows|));
    GroupsOfContiguous(Window(own, rows), account);
  }

  lemma WindowKeepsAccount(own: Own<GroupRow>, rows: seq<JoinRow>, account: int)
    requires forall i :: 0 <= i < |rows| ==> rows[i].0 == account
    ensures forall i :: 0 <= i < |Window(own, rows)| ==> Window(own, rows)[i].0 == account
  {
  }

  /** The answer for a batch is the answers for its accounts put together: the rows of a group
      stand together, and the rows of an account are those it gets alone, in the same order. */
  ghost predicate Shared(own: Own<GroupRow>, ids: seq<int>, db: Tables)
  {
    var all := db.joined(own, ids);
    && Contiguous(all)
    && forall a :: a in ids ==>
         Contiguous(db.joined(own, [a])) && db.joined(own, [a]) == Pick(all, Accounts(all), a)
  }

  lemma WindowedGroupsOfOne(plan: GroupPlan, ids: seq<int>, account: int, db: Tables)
    requires Shared(plan.own, ids, db) && account in ids
    ensures var all := db.joined(plan.own, ids);
            GroupsOf(SelectJoin(plan, ids, db), account) == NestedGroups(plan, account, db) <==>
            Spared(plan.own, all, Accounts(all), account)
  {
    var own := plan.own;
    var all, mine := db.joined(own, ids), db.joined(own, [account]);
    WindowAccounts(own, all);
    WindowAccounts(own, mine);
    WindowedGroups(own, all, account);
    WindowedGroups(own, mine, account);
    PickedAccount(all, account);
    PickedAccount(Window(own, all), account);
    WindowKeepsAccount(own, mine, account);
    PickAllOfOne(Window(own, mine), account);
    hide GroupsOf, Contiguous, Window, Pick, GroupsIn, Accounts;
    SameGroupsIn(Pick(Window(own, all), Accounts(Window(own, all)), account), Window(own, mine), account);
  }

  /** A limit or an offset on a groups query whose answers are shared gives every account what it
      would give its own query, if and only if the window is undisturbed by the other accounts. */
  lemma WindowedGroupsExactly(plan: GroupPlan, ids: seq<int>, db: Tables)
    requires Lawful(db) && Shared(plan.own, ids, db)
    ensures (forall a :: a in ids ==> GroupsOf(SelectJoin(plan, ids, db), a) == NestedGroups(plan, a, db)) <==>
            Undisturbed(plan.own, Accounts(db.joined(plan.own, ids)))
  {
    var all := db.joined(plan.own, ids);
    var ks := Accounts(all);
    ContiguousIsDistinct(all);
    AccountsAsked(plan.own, ids, db);
    hide GroupsOf, SelectJoin, NestedGroups, Spared, Undisturbed, Shared, Lawful;
    SparesExactly(plan.own, all, ks);
    forall a | a in ids
      ensures GroupsOf(SelectJoin(plan, ids, db), a) == NestedGroups(plan, a, db) <==> Spared(plan.own, all, ks, a)
    {
      WindowedGroupsOfOne(plan, ids, a, db);
    }
    forall a | a in ids && Some(a) !in ks ensures Spared(plan.own, all, ks, a) {
      AbsentSpared(plan.own, all, ks, a);
    }
  }

  lemma ContiguousIsDistinct(rows: seq<JoinRow>)
    requires Contiguous(rows)
    ensures Distinct(rows)
  {
  }

  lemma AccountsAsked(own: Own<GroupRow>, ids: seq<int>, db: Tables)
    requires Lawful(db)
    ensures forall a :: Some(a) in Accounts(db.joined(own, ids)) ==> a in ids
  {
    var all := db.joined(own, ids);
    assert Arranged(own, ids, db, all);
    forall a | Some(a) in Accounts(all) ensures a in ids {
      var i :| 0 <= i < |all| && Accounts(all)[i] == Some(a);
      assert all[i] in all;
      ArrangedMembers(own, ids, db, all, all[i]);
    }
  }

  // ----- when answers are shared

  /** The database answers this joined query group by group, for the batch and for every account. */
  ghost predicate GroupedAnswers(own: Own<GroupRow>, ids: seq<int>, db: Tables)
  {
    && db.joined(own, ids) == GroupByGroup(own, ids, db)
    && forall a :: a in ids ==> db.joined(own, [a]) == GroupByGroup(own, [a], db)
  }

  lemma GroupedIsShared(own: Own<GroupRow>, ids: seq<int>, db: Tables)
    requires Keyed(db) && DistinctMemberships(db) && GroupedAnswers(own, ids, db)
    ensures Shared(own, ids, db)
  {
    GroupByGroupContiguous(own, ids, db);
    forall a | a in ids
      ensures Contiguous(db.joined(own, [a])) && db.joined(own, [a]) == Pick(db.joined(own, ids), Accounts(db.joined(own, ids)), a)
    {
      GroupByGroupContiguous(own, [a], db);
      JoinsOfOne(Arrange(own.order, Filter(own.preds, db.groups)), db.memberships, ids, a);
      hide Contiguous, JoinRows, Pick, Arrange, Filter;
    }
  }

  /** The order terms decide every two selected groups. */
  ghost predicate Decides(own: Own<GroupRow>, db: Tables)
  {
    forall g, h :: g in db.groups && h in db.groups && HoldsAll(own.preds, g) && HoldsAll(own.preds, h) && g != h ==> !Tied(own, g, h)
  }

  lemma DecidesEach(own: Own<GroupRow>, account: int, db: Tables)
    requires Decides(own, db)
    ensures DecidesFor(own, account, db)
  {
    hide Tied;
  }

  lemma AnswerDistinct(own: Own<GroupRow>, ids: seq<int>, db: Tables, rows: seq<JoinRow>)
    requires Keyed(db) && DistinctMemberships(db) && Arranged(own, ids, db, rows)
    ensures forall i, j :: 0 <= i < j < |rows| ==> rows[i] != rows[j]
  {
    var all := SelectedJoins(own, ids, db);
    FilterUnique(GROUP_ID_KEY, own.preds, db.groups);
    JoinsContiguous(Filter(own.preds, db.groups), db.memberships, ids);
    hide SelectedJoins;
    forall r ensures multiset(rows)[r] <= 1 {
      OnceIn(all, r);
    }
    forall i, j | 0 <= i < j < |rows| ensures rows[i] != rows[j] {
      assert rows == rows[..j] + rows[j..] && rows[..j][i] == rows[i] && rows[j..][0] == rows[j];
      assert multiset(rows) == multiset(rows[..j]) + multiset(rows[j..]);
      assert multiset(rows)[rows[i]] <= 1;
    }
  }

  lemma {:induction false} OnceIn(rows: seq<JoinRow>, r: JoinRow)
    requires forall i, j :: 0 <= i < j < |rows| ==> rows[i] != rows[j]
    ensures multiset(rows)[r] <= 1
    decreases |rows|
  {
    if rows != [] {
      var n := |rows| - 1;
      assert rows == rows[..n] + [rows[n]];
      OnceIn(rows[..n], r);
      assert rows[n] !in rows[..n];
    }
  }

  /** When the order terms decide, the rows of a group stand together in every legal answer. */
  lemma DecidedContiguous(own: Own<GroupRow>, ids: seq<int>, db: Tables, rows: seq<JoinRow>)
    requires Keyed(db) && DistinctMemberships(db) && Arranged(own, ids, db, rows) && Decides(own, db)
    ensures Contiguous(rows)
  {
    AnswerDistinct(own, ids, db, rows);
    ArrangedIDs(own, ids, db, rows);
    forall i, j, k | 0 <= i < j < k < |rows| && rows[i].1.id == rows[k].1.id ensures rows[j].1.id == rows[i].1.id {
      assert rows[i].1 == rows[k].1;
      assert AtMost(own.order, rows[i].1, rows[j].1) && AtMost(own.order, rows[j].1, rows[k].1);
      assert rows[i] in rows && rows[j] in rows;
      ArrangedMembers(own, ids, db, rows, rows[i]);
      ArrangedMembers(own, ids, db, rows, rows[j]);
      assert Tied(own, rows[i].1, rows[j].1);
    }
  }

  /** And every legal answer for a batch is the answers for its accounts put together. */
  lemma DecidedIsShared(own: Own<GroupRow>, ids: seq<int>, db: Tables)
    requires Lawful(db) && DistinctMemberships(db) && Decides(own, db)
    ensures Shared(own, ids, db)
  {
    hide Keyed, Arranged, Contiguous, Decides, GroupsOf, Pick, Accounts, GroupsIn, DistinctMemberships;
    var all := db.joined(own, ids);
    assert Arranged(own, ids, db, all);
    DecidedContiguous(own, ids, db, all);
    forall a | a in ids ensures Contiguous(db.joined(own, [a])) && db.joined(own, [a]) == Pick(all, Accounts(all), a) {
      var mine := db.joined(own, [a]);
      assert Arranged(own, [a], db, mine);
      DecidedContiguous(own, [a], db, mine);
      DecidesEach(own, a, db);
      DecidedLists(own, ids, a, db, all, mine);
      GroupsOfContiguous(all, a);
      GroupsOfContiguous(mine, a);
      PickedAccount(all, a);
      AnswerForOne(own, a, db, mine);
      PickAllOfOne(mine, a);
      SameGroupsIn(Pick(all, Accounts(all), a), mine, a);
    }
  }

  lemma AnswerForOne(own: Own<GroupRow>, account: int, db: Tables, rows: seq<JoinRow>)
    requires Arranged(own, [account], db, rows)
    ensures forall i :: 0 <= i < |rows| ==> rows[i].0 == account
  {
    forall i | 0 <= i < |rows| ensures rows[i].0 == account {
      assert rows[i] in rows;
      ArrangedMembers(own, [account], db, rows, rows[i]);
    }
  }

  /** The grouped case without a window: the order is that of the account's own query. */
  lemma GroupedOrder(plan: GroupPlan, ids: seq<int>, account: int, db: Tables)
    requires Lawful(db) && DistinctMemberships(db) && GroupedAnswers(plan.own, ids, db) && plan.own.Unwindowed() && account in ids
    ensures GroupsOf(SelectJoin(plan, ids, db), account) == NestedGroups(plan, account, db)
  {
    GroupedIsShared(plan.own, ids, db);
    WindowedGroupsExactly(plan, ids, db);
    hide GroupsOf, SelectJoin, NestedGroups, Lawful, Shared;
    assert Undisturbed(plan.own, Accounts(db.joined(plan.own, ids)));
  }
}
