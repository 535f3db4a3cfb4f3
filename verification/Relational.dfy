/** The trusted relational interface: which rows a query returns, in which order.
    Selecting keeps the rows satisfying every predicate, arranges them by the order
    terms (stably) and then applies offset and limit, as a SQL database does. */
module Relational {
  import opened Wrappers

  /** KeyIn is the predicate the loaders append: the key column IN (ids). */
  datatype Pred<!T> =
    | Custom(holds: T -> bool)
    | KeyIn(key: T -> Option<int>, ids: seq<int>)

  predicate Holds<T>(p: Pred<T>, r: T)
  {
    match p
    case Custom(f) => f(r)
    case KeyIn(key, ids) => key(r).Some? && key(r).value in ids
  }

  predicate HoldsAll<T>(ps: seq<Pred<T>>, r: T)
  {
    forall i :: 0 <= i < |ps| ==> Holds(ps[i], r)
  }

  /** What one query asks of its own table; limit 0 means no limit, as in QuerySpec. */
  datatype Own<!T> = Own(preds: seq<Pred<T>>, order: seq<T -> int>, limit: nat, offset: nat) {
    function And(p: Pred<T>): Own<T>
    {
      this.(preds := preds + [p])
    }

    predicate Unwindowed()
    {
      limit == 0 && offset == 0
    }
  }

  function Filter<T>(ps: seq<Pred<T>>, rows: seq<T>): seq<T>
  {
    if rows == [] then []
    else (if HoldsAll(ps, rows[0]) then [rows[0]] else []) + Filter(ps, rows[1..])
  }

  /** ORDER BY: lexicographic over the terms. */
  predicate AtMost<T>(order: seq<T -> int>, a: T, b: T)
  {
    order != [] ==>
      order[0](a) < order[0](b) || (order[0](a) == order[0](b) && AtMost(order[1..], a, b))
  }

  function Insert<T>(order: seq<T -> int>, r: T, rows: seq<T>): seq<T>
  {
    if rows == [] || AtMost(order, r, rows[0]) then [r] + rows
    else [rows[0]] + Insert(order, r, rows[1..])
  }

  function Arrange<T>(order: seq<T -> int>, rows: seq<T>): seq<T>
  {
    if rows == [] then [] else Insert(order, rows[0], Arrange(order, rows[1..]))
  }

  /** Offset and limit of q, on a sequence of anything. */
  function Window<T, U>(q: Own<T>, rows: seq<U>): seq<U>
  {
    var rest := if q.offset <= |rows| then rows[q.offset..] else [];
    if q.limit == 0 || |rest| <= q.limit then rest else rest[..q.limit]
  }

  function Select<T>(q: Own<T>, table: seq<T>): seq<T>
  {
    Window(q, Arrange(q.order, Filter(q.preds, table)))
  }

  // ----- rows of a selection

  lemma {:induction false} FilterMembers<T>(ps: seq<Pred<T>>, rows: seq<T>, r: T)
    ensures r in Filter(ps, rows) <==> r in rows && HoldsAll(ps, r)
  {
    if rows != [] {
      FilterMembers(ps, rows[1..], r);
    }
  }

  lemma {:induction false} InsertMembers<T>(order: seq<T -> int>, r: T, rows: seq<T>, x: T)
    ensures x in Insert(order, r, rows) <==> x == r || x in rows
  {
    if rows != [] && !AtMost(order, r, rows[0]) {
      InsertMembers(order, r, rows[1..], x);
    }
  }

  lemma {:induction false} ArrangeMembers<T>(order: seq<T -> int>, rows: seq<T>, x: T)
    ensures x in Arrange(order, rows) <==> x in rows
  {
    if rows != [] {
      ArrangeMembers(order, rows[1..], x);
      InsertMembers(order, rows[0], Arrange(order, rows[1..]), x);
    }
  }

  /** Every selected row is in the table and satisfies the predicates. */
  lemma SelectSound<T>(q: Own<T>, table: seq<T>, r: T)
    requires r in Select(q, table)
    ensures r in table && HoldsAll(q.preds, r)
  {
    var arranged := Arrange(q.order, Filter(q.preds, table));
    assert r in arranged;
    ArrangeMembers(q.order, Filter(q.preds, table), r);
    FilterMembers(q.preds, table, r);
  }

  // ----- unique keys

  ghost predicate Unique<T>(key: T -> Option<int>, rows: seq<T>)
  {
    forall i, j :: 0 <= i < j < |rows| ==> key(rows[i]) != key(rows[j])
  }

  lemma {:induction false} FilterUnique<T>(key: T -> Option<int>, ps: seq<Pred<T>>, rows: seq<T>)
    requires Unique(key, rows)
    ensures Unique(key, Filter(ps, rows))
  {
    if rows != [] {
      FilterUnique(key, ps, rows[1..]);
      forall x | x in Filter(ps, rows[1..]) ensures key(x) != key(rows[0]) {
        FilterMembers(ps, rows[1..], x);
      }
    }
  }

  lemma {:induction false} InsertUnique<T>(key: T -> Option<int>, order: seq<T -> int>, r: T, rows: seq<T>)
    requires Unique(key, rows) && forall x :: x in rows ==> key(x) != key(r)
    ensures Unique(key, Insert(order, r, rows))
  {
    if rows != [] && !AtMost(order, r, rows[0]) {
      InsertUnique(key, order, r, rows[1..]);
      forall x | x in Insert(order, r, rows[1..]) ensures key(x) != key(rows[0]) {
        InsertMembers(order, r, rows[1..], x);
      }
    }
  }

  lemma {:induction false} ArrangeUnique<T>(key: T -> Option<int>, order: seq<T -> int>, rows: seq<T>)
    requires Unique(key, rows)
    ensures Unique(key, Arrange(order, rows))
  {
    if rows != [] {
      ArrangeUnique(key, order, rows[1..]);
      forall x | x in Arrange(order, rows[1..]) ensures key(x) != key(rows[0]) {
        ArrangeMembers(order, rows[1..], x);
      }
      InsertUnique(key, order, rows[0], Arrange(order, rows[1..]));
    }
  }

  lemma SelectUnique<T>(key: T -> Option<int>, q: Own<T>, table: seq<T>)
    requires Unique(key, table)
    ensures Unique(key, Select(q, table))
  {
    FilterUnique(key, q.preds, table);
    ArrangeUnique(key, q.order, Filter(q.preds, table));
  }

  // ----- one query for many keys against one query per key

  lemma {:induction false} FilterSame<T>(ps: seq<Pred<T>>, qs: seq<Pred<T>>, rows: seq<T>)
    requires forall r :: r in rows ==> (HoldsAll(ps, r) <==> HoldsAll(qs, r))
    ensures Filter(ps, rows) == Filter(qs, rows)
  {
    if rows != [] {
      FilterSame(ps, qs, rows[1..]);
    }
  }

  lemma {:induction false} FilterTwice<T>(ps: seq<Pred<T>>, qs: seq<Pred<T>>, rows: seq<T>)
    ensures Filter(qs, Filter(ps, rows)) == Filter(ps + qs, rows)
  {
    if rows != [] {
      FilterTwice(ps, qs, rows[1..]);
      var r := rows[0];
      var rest := Filter(ps, rows[1..]);
      assert HoldsAll(ps + qs, r) <==> HoldsAll(ps, r) && HoldsAll(qs, r) by {
        HoldsConcat(ps, qs, r);
      }
      if HoldsAll(ps, r) {
        assert ([r] + rest)[1..] == rest;
      } else {
        assert [] + rest == rest;
      }
    }
  }

  lemma HoldsConcat<T>(ps: seq<Pred<T>>, qs: seq<Pred<T>>, r: T)
    ensures HoldsAll(ps + qs, r) <==> HoldsAll(ps, r) && HoldsAll(qs, r)
  {
    if HoldsAll(ps + qs, r) {
      forall i | 0 <= i < |ps| ensures Holds(ps[i], r) {
        assert (ps + qs)[i] == ps[i];
      }
      forall i | 0 <= i < |qs| ensures Holds(qs[i], r) {
        assert (ps + qs)[|ps| + i] == qs[i];
      }
    }
  }

  lemma {:induction false} AtMostTransitive<T>(order: seq<T -> int>, a: T, b: T, c: T)
    requires AtMost(order, a, b) && AtMost(order, b, c)
    ensures AtMost(order, a, c)
  {
    if order != [] && order[0](a) == order[0](b) == order[0](c) {
      AtMostTransitive(order[1..], a, b, c);
    }
  }

  ghost predicate Sorted<T>(order: seq<T -> int>, rows: seq<T>)
  {
    forall i, j :: 0 <= i < j < |rows| ==> AtMost(order, rows[i], rows[j])
  }

  lemma {:induction false} AtMostTotal<T>(order: seq<T -> int>, a: T, b: T)
    ensures AtMost(order, a, b) || AtMost(order, b, a)
  {
    if order != [] {
      AtMostTotal(order[1..], a, b);
    }
  }

  lemma {:induction false} InsertSorted<T>(order: seq<T -> int>, r: T, rows: seq<T>)
    requires Sorted(order, rows)
    ensures Sorted(order, Insert(order, r, rows))
  {
    if rows == [] {
    } else if AtMost(order, r, rows[0]) {
      forall x | x in rows ensures AtMost(order, r, x) {
        if x != rows[0] {
          AtMostTransitive(order, r, rows[0], x);
        }
      }
    } else {
      AtMostTotal(order, r, rows[0]);
      InsertSorted(order, r, rows[1..]);
      forall x | x in Insert(order, r, rows[1..]) ensures AtMost(order, rows[0], x) {
        InsertMembers(order, r, rows[1..], x);
      }
    }
  }

  lemma {:induction false} ArrangeSorted<T>(order: seq<T -> int>, rows: seq<T>)
    ensures Sorted(order, Arrange(order, rows))
  {
    if rows != [] {
      ArrangeSorted(order, rows[1..]);
      InsertSorted(order, rows[0], Arrange(order, rows[1..]));
    }
  }

  lemma {:induction false} InsertFirst<T>(order: seq<T -> int>, r: T, rows: seq<T>)
    requires forall x :: x in rows ==> AtMost(order, r, x)
    ensures Insert(order, r, rows) == [r] + rows
  {
  }

  lemma {:induction false} InsertFilter<T>(order: seq<T -> int>, ps: seq<Pred<T>>, r: T, rows: seq<T>)
    requires Sorted(order, rows)
    ensures Filter(ps, Insert(order, r, rows)) ==
            if HoldsAll(ps, r) then Insert(order, r, Filter(ps, rows)) else Filter(ps, rows)
  {
    if rows == [] {
    } else if AtMost(order, r, rows[0]) {
      assert ([r] + rows)[1..] == rows;
      forall x | x in Filter(ps, rows) ensures AtMost(order, r, x) {
        FilterMembers(ps, rows, x);
        if x != rows[0] {
          AtMostTransitive(order, r, rows[0], x);
        }
      }
      InsertFirst(order, r, Filter(ps, rows));
    } else {
      InsertFilter(order, ps, r, rows[1..]);
      var rest := Insert(order, r, rows[1..]);
      assert ([rows[0]] + rest)[1..] == rest;
      var kept := Filter(ps, rows[1..]);
      if HoldsAll(ps, rows[0]) {
        assert ([rows[0]] + kept)[1..] == kept;
      } else {
        assert [] + kept == kept && [] + Filter(ps, rest) == Filter(ps, rest);
      }
    }
  }

  /** Filtering before or after a stable sort makes no difference. */
  lemma {:induction false} ArrangeFilter<T>(order: seq<T -> int>, ps: seq<Pred<T>>, rows: seq<T>)
    ensures Filter(ps, Arrange(order, rows)) == Arrange(order, Filter(ps, rows))
  {
    if rows != [] {
      ArrangeFilter(order, ps, rows[1..]);
      ArrangeSorted(order, rows[1..]);
      InsertFilter(order, ps, rows[0], Arrange(order, rows[1..]));
      var kept := Filter(ps, rows[1..]);
      if HoldsAll(ps, rows[0]) {
        assert ([rows[0]] + kept)[1..] == kept;
      } else {
        assert [] + kept == kept;
      }
    }
  }

  /** The core of eager loading: one query for all the keys, filtered down to one key,
      returns what a separate query for that key would have returned, in the same order. */
  lemma SelectOneOfMany<T>(q: Own<T>, key: T -> Option<int>, ids: seq<int>, id: int, table: seq<T>)
    requires q.Unwindowed() && id in ids
    ensures Filter([KeyIn(key, [id])], Select(q.And(KeyIn(key, ids)), table)) == Select(q.And(KeyIn(key, [id])), table)
  {
    var many, one := [KeyIn(key, ids)], [KeyIn(key, [id])];
    ArrangeFilter(q.order, one, Filter(q.preds + many, table));
    FilterTwice(q.preds + many, one, table);
    forall r | r in table ensures HoldsAll(q.preds + many + one, r) <==> HoldsAll(q.preds + one, r) {
      HoldsConcat(q.preds + many, one, r);
      HoldsConcat(q.preds, many, r);
      HoldsConcat(q.preds, one, r);
      if HoldsAll(one, r) {
        assert Holds(one[0], r);
        assert key(r) == Some(id);
      }
    }
    FilterSame(q.preds + many + one, q.preds + one, table);
    var all := Arrange(q.order, Filter(q.preds + many, table));
    assert all[0..] == all;
    var each := Arrange(q.order, Filter(q.preds + one, table));
    assert each[0..] == each;
  }

  /** Appending the same predicate once more changes nothing. */
  lemma SelectAgain<T>(q: Own<T>, p: Pred<T>, table: seq<T>)
    requires p in q.preds
    ensures Select(q.And(p), table) == Select(q, table)
  {
    forall r | r in table ensures HoldsAll(q.preds + [p], r) <==> HoldsAll(q.preds, r) {
      HoldsConcat(q.preds, [p], r);
      if HoldsAll(q.preds, r) {
        assert Holds(p, r);
      }
    }
    FilterSame(q.preds + [p], q.preds, table);
  }

  // ----- what an answer is

  /** How often each row is there: as in the table if it satisfies the predicates, else never. */
  lemma {:induction false} FilterCounts<T>(ps: seq<Pred<T>>, rows: seq<T>, r: T)
    ensures multiset(Filter(ps, rows))[r] == if HoldsAll(ps, r) then multiset(rows)[r] else 0
  {
    if rows != [] {
      FilterCounts(ps, rows[1..], r);
      assert rows == [rows[0]] + rows[1..];
    }
  }

  lemma {:induction false} InsertCounts<T>(order: seq<T -> int>, r: T, rows: seq<T>)
    ensures multiset(Insert(order, r, rows)) == multiset(rows) + multiset{r}
  {
    if rows != [] && !AtMost(order, r, rows[0]) {
      InsertCounts(order, r, rows[1..]);
      assert rows == [rows[0]] + rows[1..];
    }
  }

  lemma {:induction false} ArrangeCounts<T>(order: seq<T -> int>, rows: seq<T>)
    ensures multiset(Arrange(order, rows)) == multiset(rows)
  {
    if rows != [] {
      ArrangeCounts(order, rows[1..]);
      InsertCounts(order, rows[0], Arrange(order, rows[1..]));
      assert rows == [rows[0]] + rows[1..];
    }
  }

  /** The sort is stable: what is in order stays as it is. */
  lemma {:induction false} ArrangeInOrder<T>(order: seq<T -> int>, rows: seq<T>)
    requires Sorted(order, rows)
    ensures Arrange(order, rows) == rows
  {
    if rows != [] {
      ArrangeInOrder(order, rows[1..]);
      InsertFirst(order, rows[0], rows[1..]);
    }
  }

  /** A whole answer, before its window: the rows of the table that satisfy the predicates, as
      often as they are there, in an order the order terms allow. */
  ghost predicate Answers<T(!new)>(q: Own<T>, table: seq<T>, rows: seq<T>)
  {
    && Sorted(q.order, rows)
    && forall r :: multiset(rows)[r] == if HoldsAll(q.preds, r) then multiset(table)[r] else 0
  }

  /** The window skips offset rows and then takes limit rows, or all of them if the limit is 0. */
  predicate Windowed<T, U(==)>(q: Own<T>, all: seq<U>, rows: seq<U>)
  {
    var n := |all|;
    && (n <= q.offset ==> rows == [])
    && (q.offset < n && (q.limit == 0 || n - q.offset <= q.limit) ==> rows == all[q.offset..])
    && (q.offset < n && q.limit != 0 && n - q.offset > q.limit ==> rows == all[q.offset..q.offset + q.limit])
  }

  lemma WindowIsWindowed<T, U>(q: Own<T>, all: seq<U>)
    ensures Windowed(q, all, Window(q, all))
  {
  }

  lemma FilterAnswers<T(!new)>(q: Own<T>, table: seq<T>)
    ensures Answers(q, table, Arrange(q.order, Filter(q.preds, table)))
  {
    ArrangeSorted(q.order, Filter(q.preds, table));
    ArrangeCounts(q.order, Filter(q.preds, table));
    hide Sorted, Filter, Arrange, HoldsAll;
    forall r ensures multiset(Filter(q.preds, table))[r] == if HoldsAll(q.preds, r) then multiset(table)[r] else 0 {
      FilterCounts(q.preds, table, r);
    }
  }

  /** What a query returns is the window of a whole answer, and all of it without a window. */
  lemma SelectAnswers<T(!new)>(q: Own<T>, table: seq<T>)
    ensures Answers(q, table, Select(q.(limit := 0, offset := 0), table))
    ensures Windowed(q, Select(q.(limit := 0, offset := 0), table), Select(q, table))
  {
    hide Answers, Windowed, Filter, Arrange;
    var all := Arrange(q.order, Filter(q.preds, table));
    assert all[0..] == all;
    FilterAnswers(q, table);
    WindowIsWindowed(q, all);
  }

  /** The first order term that tells two rows apart decides; if there is none, they are tied. */
  lemma {:induction false} AtMostExactly<T>(order: seq<T -> int>, a: T, b: T)
    ensures AtMost(order, a, b) <==>
            || (forall i :: 0 <= i < |order| ==> order[i](a) == order[i](b))
            || (exists k :: 0 <= k < |order| && order[k](a) < order[k](b) && forall i :: 0 <= i < k ==> order[i](a) == order[i](b))
  {
    if order != [] && order[0](a) == order[0](b) {
      AtMostExactly(order[1..], a, b);
      if k :| 0 <= k < |order| && order[k](a) < order[k](b) && forall i :: 0 <= i < k ==> order[i](a) == order[i](b) {
        assert order[1..][k - 1] == order[k];
      }
      if k :| 0 <= k < |order[1..]| && order[1..][k](a) < order[1..][k](b) && forall i :: 0 <= i < k ==> order[1..][i](a) == order[1..][i](b) {
        forall i | 0 <= i < k + 1 ensures order[i](a) == order[i](b) {
          assert i > 0 ==> order[1..][i - 1] == order[i];
        }
        assert order[k + 1] == order[1..][k];
      }
      if forall i :: 0 <= i < |order[1..]| ==> order[1..][i](a) == order[1..][i](b) {
        forall i | 0 <= i < |order| ensures order[i](a) == order[i](b) {
          assert i > 0 ==> order[1..][i - 1] == order[i];
        }
      }
    }
  }
}
