/** One query for many keys against one query per key: how a batch is shared out, and what a
    limit or an offset on it does. */
module JoinBatches {
  import opened Wrappers
  import opened Relational
  import opened JoinSpec

  // ----- shares of a batch are filters

  lemma {:induction false} FilterConcat<T>(ps: seq<Pred<T>>, a: seq<T>, b: seq<T>)
    ensures Filter(ps, a + b) == Filter(ps, a) + Filter(ps, b)
  {
    if a == [] {
      assert a + b == b;
    } else {
      hide HoldsAll;
      assert (a + b)[0] == a[0] && (a + b)[1..] == a[1..] + b;
      FilterConcat(ps, a[1..], b);
      var head := if HoldsAll(ps, a[0]) then [a[0]] else [];
      assert head + (Filter(ps, a[1..]) + Filter(ps, b)) == (head + Filter(ps, a[1..])) + Filter(ps, b);
    }
  }

  lemma {:induction false} PickIsFilter<T>(key: T -> Option<int>, rows: seq<T>, id: int)
    ensures Pick(rows, Keys(key, rows), id) == Filter([KeyIn(key, [id])], rows)
  {
    if rows != [] {
      var n := |rows| - 1;
      var ps := [KeyIn(key, [id])];
      PickIsFilter(key, rows[..n], id);
      assert Keys(key, rows)[..n] == Keys(key, rows[..n]);
      assert rows == rows[..n] + [rows[n]];
      FilterConcat(ps, rows[..n], [rows[n]]);
      assert HoldsAll(ps, rows[n]) <==> Holds(ps[0], rows[n]);
    }
  }

  /** With unique keys, the hash lookup finds the first (and only) match. */
  lemma {:induction false} LookupIsFirst<T>(xs: seq<T>, ks: seq<Option<int>>, id: int)
    requires |xs| == |ks|
    requires forall i, j :: 0 <= i < j < |ks| && ks[i] == Some(id) ==> ks[i] != ks[j]
    ensures Lookup(xs, ks, Some(id)) == First(Pick(xs, ks, id)) && |Pick(xs, ks, id)| <= 1
  {
    if xs != [] {
      var n := |xs| - 1;
      LookupIsFirst(xs[..n], ks[..n], id);
      if ks[n] == Some(id) {
        PickNothing(xs[..n], ks[..n], id);
      }
    }
  }

  /** The n-th row stands in the share of its key, after the earlier rows of that key. */
  lemma {:induction false} PickPlace<T>(xs: seq<T>, ks: seq<Option<int>>, id: int, n: nat)
    requires n < |xs| == |ks| && ks[n] == Some(id)
    ensures var place := |Pick(xs[..n], ks[..n], id)|;
            place < |Pick(xs, ks, id)| && Pick(xs, ks, id)[place] == xs[n]
    decreases |xs|
  {
    var last := |xs| - 1;
    if n < last {
      PickPlace(xs[..last], ks[..last], id, n);
      assert xs[..last][..n] == xs[..n] && ks[..last][..n] == ks[..n];
    }
  }

  // ----- counting the rows of a key

  function Count(ks: seq<Option<int>>, id: int): nat
  {
    |Pick(ks, ks, id)|
  }

  lemma {:induction false} PickLength<T>(xs: seq<T>, ks: seq<Option<int>>, id: int)
    requires |xs| == |ks|
    ensures |Pick(xs, ks, id)| == Count(ks, id) <= |ks|
  {
    if xs != [] {
      var n := |xs| - 1;
      PickLength(xs[..n], ks[..n], id);
    }
  }

  lemma {:induction false} PickConcat<T>(a: seq<T>, ka: seq<Option<int>>, b: seq<T>, kb: seq<Option<int>>, id: int)
    requires |a| == |ka| && |b| == |kb|
    ensures Pick(a + b, ka + kb, id) == Pick(a, ka, id) + Pick(b, kb, id)
    decreases |b|
  {
    if b == [] {
      assert a + b == a && ka + kb == ka;
    } else {
      var n := |b| - 1;
      assert (a + b)[..|a| + n] == a + b[..n] && (ka + kb)[..|a| + n] == ka + kb[..n];
      PickConcat(a, ka, b[..n], kb[..n], id);
    }
  }

  /** The share of a stretch of rows is a stretch of the whole share. */
  lemma PickRange<T>(xs: seq<T>, ks: seq<Option<int>>, id: int, lo: nat, hi: nat)
    requires |xs| == |ks| && lo <= hi <= |xs|
    ensures Count(ks[..lo], id) <= Count(ks[..hi], id) <= |Pick(xs, ks, id)|
    ensures Pick(xs[lo..hi], ks[lo..hi], id) == Pick(xs, ks, id)[Count(ks[..lo], id)..Count(ks[..hi], id)]
  {
    var head, mid, tail := Pick(xs[..lo], ks[..lo], id), Pick(xs[lo..hi], ks[lo..hi], id), Pick(xs[hi..], ks[hi..], id);
    assert xs[..hi] == xs[..lo] + xs[lo..hi] && ks[..hi] == ks[..lo] + ks[lo..hi];
    assert xs == xs[..hi] + xs[hi..] && ks == ks[..hi] + ks[hi..];
    PickConcat(xs[..lo], ks[..lo], xs[lo..hi], ks[lo..hi], id);
    PickConcat(xs[..hi], ks[..hi], xs[hi..], ks[hi..], id);
    PickLength(xs[..lo], ks[..lo], id);
    PickLength(xs[..hi], ks[..hi], id);
    assert Pick(xs, ks, id) == head + mid + tail;
  }

  lemma CountStep(ks: seq<Option<int>>, id: int, n: nat)
    requires n < |ks|
    ensures Count(ks[..n + 1], id) == Count(ks[..n], id) + if ks[n] == Some(id) then 1 else 0
  {
    assert ks[..n + 1][..n] == ks[..n];
    PickLength(ks[..n + 1], ks[..n + 1], id);
  }

  /** All of the first n rows have this key, exactly when they count n. */
  lemma {:induction false} CountAll(ks: seq<Option<int>>, id: int, n: nat)
    requires n <= |ks|
    ensures Count(ks[..n], id) <= n
    ensures Count(ks[..n], id) == n <==> forall i :: 0 <= i < n ==> ks[i] == Some(id)
    ensures Count(ks[..n], id) == 0 <==> forall i :: 0 <= i < n ==> ks[i] != Some(id)
  {
    if n > 0 {
      CountAll(ks, id, n - 1);
      CountStep(ks, id, n - 1);
    }
  }

  lemma {:induction false} CountGrows(ks: seq<Option<int>>, id: int, a: nat, b: nat)
    requires a <= b <= |ks|
    ensures Count(ks[..a], id) <= Count(ks[..b], id) <= Count(ks[..a], id) + (b - a)
    decreases b - a
  {
    if a < b {
      CountGrows(ks, id, a, b - 1);
      CountStep(ks, id, b - 1);
    }
  }

  // ----- windows

  function Low<T>(q: Own<T>, n: nat): nat
  {
    if q.offset <= n then q.offset else n
  }

  function High<T>(q: Own<T>, n: nat): nat
  {
    if q.limit == 0 || n <= q.offset + q.limit then n else q.offset + q.limit
  }

  lemma WindowIsRange<T, U>(q: Own<T>, xs: seq<U>)
    ensures Low(q, |xs|) <= High(q, |xs|) <= |xs|
    ensures Window(q, xs) == xs[Low(q, |xs|)..High(q, |xs|)]
  {
  }

  /** A window on a batch whose rows have the keys ks does to no key anything but what it would
      do to the rows of that key alone. Either it takes all rows, or it takes none because the
      offset passes them all, or the rows up to its end have one key and no other key has more
      rows than the offset skips. */
  ghost predicate Undisturbed<T>(q: Own<T>, ks: seq<Option<int>>)
  {
    || (q.offset == 0 && (q.limit == 0 || |ks| <= q.limit))
    || |ks| <= q.offset
    || exists id :: id in ks && Ruled(q, ks, id)
  }

  predicate Ruled<T>(q: Own<T>, ks: seq<Option<int>>, id: Option<int>)
  {
    && (forall i :: 0 <= i < High(q, |ks|) ==> ks[i] == id)
    && (forall i :: 0 <= i < |ks| && ks[i].Some? && ks[i] != id ==> Count(ks, ks[i].value) <= q.offset)
  }

  ghost predicate Distinct<T(!new)>(xs: seq<T>)
  {
    forall i, j :: 0 <= i < j < |xs| ==> xs[i] != xs[j]
  }

  lemma {:induction false} PickDistinct<T(!new)>(xs: seq<T>, ks: seq<Option<int>>, id: int)
    requires |xs| == |ks| && Distinct(xs)
    ensures Distinct(Pick(xs, ks, id)) && forall x :: x in Pick(xs, ks, id) ==> x in xs
    decreases |xs|
  {
    if xs != [] {
      var n := |xs| - 1;
      PickDistinct(xs[..n], ks[..n], id);
      forall x | x in Pick(xs[..n], ks[..n], id) ensures x != xs[n] && x in xs {
        var i :| 0 <= i < n && xs[..n][i] == x;
        assert xs[i] == x;
      }
      var head, all := Pick(xs[..n], ks[..n], id), Pick(xs, ks, id);
      forall i, j | 0 <= i < j < |all| ensures all[i] != all[j] {
        assert all[i] == head[i] && head[i] in head;
      }
      forall x | x in all ensures x in xs {
        assert x in head || x == xs[n];
      }
    }
  }

  /** Two stretches of a sequence without repetition are equal when they are the same stretch
      or both empty, and only then. */
  lemma SameStretch<T(!new)>(s: seq<T>, a: nat, b: nat, c: nat, d: nat)
    requires Distinct(s) && a <= b <= |s| && c <= d <= |s|
    ensures s[a..b] == s[c..d] <==> (a == b && c == d) || (a == c && b == d)
  {
    if s[a..b] == s[c..d] && a < b {
      assert s[a..b][0] == s[a] && s[c..d][0] == s[c];
      assert |s[a..b]| == b - a && |s[c..d]| == d - c;
    }
  }

  /** What the window leaves of key id in the batch is what it leaves of the rows of id alone. */
  ghost predicate Spared<T, U>(q: Own<T>, xs: seq<U>, ks: seq<Option<int>>, id: int)
    requires |xs| == |ks|
  {
    |Window(q, xs)| == |Window(q, ks)| && Pick(Window(q, xs), Window(q, ks), id) == Window(q, Pick(xs, ks, id))
  }

  /** The stretches of its rows that key id keeps, in the batch and alone. */
  lemma SparedRange<T, U(!new)>(q: Own<T>, xs: seq<U>, ks: seq<Option<int>>, id: int)
    requires |xs| == |ks| && Distinct(xs)
    ensures var n := Count(ks, id);
            var a, b := Count(ks[..Low(q, |ks|)], id), Count(ks[..High(q, |ks|)], id);
            && a <= b <= n
            && (Spared(q, xs, ks, id) <==> (a == b && Low(q, n) == High(q, n)) || (a == Low(q, n) && b == High(q, n)))
  {
    var lo, hi := Low(q, |ks|), High(q, |ks|);
    WindowIsRange(q, xs);
    WindowIsRange(q, ks);
    PickRange(xs, ks, id, lo, hi);
    PickLength(xs, ks, id);
    var s := Pick(xs, ks, id);
    WindowIsRange(q, s);
    PickDistinct(xs, ks, id);
    SameStretch(s, Count(ks[..lo], id), Count(ks[..hi], id), Low(q, |s|), High(q, |s|));
  }

  lemma UndisturbedSpares<T, U(!new)>(q: Own<T>, xs: seq<U>, ks: seq<Option<int>>, id: int)
    requires |xs| == |ks| && Distinct(xs) && Undisturbed(q, ks)
    ensures Spared(q, xs, ks, id)
  {
    var n, lo, hi := Count(ks, id), Low(q, |ks|), High(q, |ks|);
    SparedRange(q, xs, ks, id);
    PickLength(ks, ks, id);
    assert ks[..|ks|] == ks;
    CountAll(ks, id, lo);
    CountAll(ks, id, hi);
    CountGrows(ks, id, lo, hi);
    if |ks| > q.offset && !(q.offset == 0 && (q.limit == 0 || |ks| <= q.limit)) {
      var k :| k in ks && Ruled(q, ks, k);
      if k == Some(id) {
        CountGrows(ks, id, hi, |ks|);
      } else if n > 0 {
        CountAll(ks, id, |ks|);
        var i :| 0 <= i < |ks| && ks[i] == Some(id);
        assert n <= q.offset;
      }
    }
  }

  /** When the window spares every key, the rows it skips belong to the key of the first row it takes. */
  lemma SkippedRows<T, U(!new)>(q: Own<T>, xs: seq<U>, ks: seq<Option<int>>)
    requires |xs| == |ks| && Distinct(xs) && q.offset < |ks| && ks[q.offset].Some?
    requires Spared(q, xs, ks, ks[q.offset].value)
    ensures forall i :: 0 <= i < q.offset ==> ks[i] == ks[q.offset]
  {
    var o, id := q.offset, ks[q.offset].value;
    SparedRange(q, xs, ks, id);
    CountAll(ks, id, o);
    CountStep(ks, id, o);
    CountGrows(ks, id, o + 1, High(q, |ks|));
    CountGrows(ks, id, High(q, |ks|), |ks|);
    assert ks[..|ks|] == ks;
  }

  lemma SparesIsUndisturbed<T, U(!new)>(q: Own<T>, xs: seq<U>, ks: seq<Option<int>>)
    requires |xs| == |ks| && Distinct(xs) && None !in ks
    requires forall id :: Some(id) in ks ==> Spared(q, xs, ks, id)
    ensures Undisturbed(q, ks)
  {
    if q.offset < |ks| && !(q.offset == 0 && (q.limit == 0 || |ks| <= q.limit)) {
      var k := ks[q.offset];
      assert k in ks && k.Some?;
      SkippedRows(q, xs, ks);
      if q.offset > 0 {
        RuledByOffset(q, xs, ks);
      } else {
        RuledByLimit(q, xs, ks);
      }
    }
  }

  lemma RuledByOffset<T, U(!new)>(q: Own<T>, xs: seq<U>, ks: seq<Option<int>>)
    requires |xs| == |ks| && Distinct(xs) && None !in ks && 0 < q.offset < |ks|
    requires forall id :: Some(id) in ks ==> Spared(q, xs, ks, id)
    requires forall i :: 0 <= i < q.offset ==> ks[i] == ks[q.offset]
    ensures Ruled(q, ks, ks[q.offset])
  {
    var o, hi := q.offset, High(q, |ks|);
    forall i | 0 <= i < |ks| && ks[i] != ks[o]
      ensures ks[i].Some? && Count(ks, ks[i].value) <= o && !(i < hi)
    {
      assert ks[i] in ks;
      var id := ks[i].value;
      SparedRange(q, xs, ks, id);
      CountAll(ks, id, o);
      CountAll(ks, id, hi);
    }
  }

  lemma RuledByLimit<T, U(!new)>(q: Own<T>, xs: seq<U>, ks: seq<Option<int>>)
    requires |xs| == |ks| && Distinct(xs) && None !in ks && q.offset == 0 && 0 < q.limit < |ks|
    requires forall id :: Some(id) in ks ==> Spared(q, xs, ks, id)
    ensures Ruled(q, ks, ks[0])
  {
    var L, last := q.limit, ks[q.limit];
    assert last in ks && ks[0] in ks;
    assert ks[..0] == [] && ks[..|ks|] == ks;
    forall id | Some(id) in ks ensures Count(ks[..L], id) == if Count(ks, id) <= L then Count(ks, id) else L {
      SparedRange(q, xs, ks, id);
      CountAll(ks, id, 0);
    }
    CountStep(ks, last.value, L);
    CountAll(ks, last.value, L);
    CountGrows(ks, last.value, L + 1, |ks|);
    assert forall i :: 0 <= i < L ==> ks[i] == last;
    assert ks[0] == last;
    forall i | 0 <= i < |ks| && ks[i] != ks[0] ensures ks[i].Some? && Count(ks, ks[i].value) <= 0 {
      assert ks[i] in ks;
      CountAll(ks, ks[i].value, L);
    }
  }

  /** The window spares every key if and only if it is undisturbed by the other keys. */
  lemma SparesExactly<T, U(!new)>(q: Own<T>, xs: seq<U>, ks: seq<Option<int>>)
    requires |xs| == |ks| && Distinct(xs) && None !in ks
    ensures (forall id :: Some(id) in ks ==> Spared(q, xs, ks, id)) <==> Undisturbed(q, ks)
  {
    hide Spared, Undisturbed;
    if Undisturbed(q, ks) {
      forall id | Some(id) in ks ensures Spared(q, xs, ks, id) {
        UndisturbedSpares(q, xs, ks, id);
      }
    } else if forall id :: Some(id) in ks ==> Spared(q, xs, ks, id) {
      SparesIsUndisturbed(q, xs, ks);
    }
  }

  ghost predicate OneKey(ks: seq<Option<int>>)
  {
    forall i, j :: 0 <= i < j < |ks| ==> ks[i] == ks[j]
  }

  /** A limit without an offset is harmless if and only if it takes all rows or all have one key. */
  lemma LimitExactly<T>(q: Own<T>, ks: seq<Option<int>>)
    requires q.limit > 0 && q.offset == 0 && None !in ks
    ensures Undisturbed(q, ks) <==> |ks| <= q.limit || OneKey(ks)
  {
    assert ks[..|ks|] == ks;
    if id :| id in ks && Ruled(q, ks, id) {
      forall i | 0 <= i < |ks| ensures ks[i] == id {
        assert ks[i] in ks;
        CountAll(ks, ks[i].value, |ks|);
      }
    }
    if OneKey(ks) && |ks| > q.limit {
      assert ks[0] in ks && forall i :: 0 <= i < |ks| ==> ks[i] == ks[0];
      assert Ruled(q, ks, ks[0]);
    }
  }

  /** An offset without a limit is harmless if and only if it skips all rows or all have one key. */
  lemma OffsetExactly<T>(q: Own<T>, ks: seq<Option<int>>)
    requires q.limit == 0 && q.offset > 0
    ensures Undisturbed(q, ks) <==> |ks| <= q.offset || OneKey(ks)
  {
    if OneKey(ks) && ks != [] {
      assert ks[0] in ks && forall i :: 0 <= i < |ks| ==> ks[i] == ks[0];
      assert Ruled(q, ks, ks[0]);
    }
  }

  // ----- the shares together

  /** Nothing is lost and nothing is shared: over distinct keys, the shares are together as
      long as the batch. */
  lemma {:induction false} SharesPartition<T>(ids: seq<int>, near: seq<T>, nearKeys: seq<Option<int>>)
    requires |near| == |nearKeys|
    requires forall i, j :: 0 <= i < j < |ids| ==> ids[i] != ids[j]
    requires forall n :: 0 <= n < |near| ==> nearKeys[n].Some? && nearKeys[n].value in ids
    ensures TotalPicked(ids, near, nearKeys) == |near|
  {
    if near == [] {
      NothingPicked<T>(ids);
    } else {
      var n := |near| - 1;
      SharesPartition(ids, near[..n], nearKeys[..n]);
      OneMorePicked(ids, near, nearKeys);
    }
  }

  function TotalPicked<T>(ids: seq<int>, near: seq<T>, nearKeys: seq<Option<int>>): nat
    requires |near| == |nearKeys|
  {
    if ids == [] then 0
    else |Pick(near, nearKeys, ids[0])| + TotalPicked(ids[1..], near, nearKeys)
  }

  lemma {:induction false} NothingPicked<T>(ids: seq<int>)
    ensures TotalPicked<T>(ids, [], []) == 0
  {
    if ids != [] {
      NothingPicked<T>(ids[1..]);
    }
  }

  lemma {:induction false} OneMorePicked<T>(ids: seq<int>, near: seq<T>, nearKeys: seq<Option<int>>)
    requires |near| == |nearKeys| > 0
    requires forall i, j :: 0 <= i < j < |ids| ==> ids[i] != ids[j]
    ensures var n := |near| - 1;
            TotalPicked(ids, near, nearKeys) ==
            TotalPicked(ids, near[..n], nearKeys[..n]) + if nearKeys[n].Some? && nearKeys[n].value in ids then 1 else 0
  {
    if ids != [] {
      OneMorePicked(ids[1..], near, nearKeys);
    }
  }

  /** How many rows the keys keep when each has a window of its own. */
  function TotalAlone<T, U>(q: Own<T>, ids: seq<int>, xs: seq<U>, ks: seq<Option<int>>): nat
    requires |xs| == |ks|
  {
    if ids == [] then 0
    else |Window(q, Pick(xs, ks, ids[0]))| + TotalAlone(q, ids[1..], xs, ks)
  }

  /** With a limit alone, no key keeps more in the batch than alone. */
  lemma LimitNeverAdds<T, U(!new)>(q: Own<T>, xs: seq<U>, ks: seq<Option<int>>, id: int)
    requires |xs| == |ks| && q.offset == 0
    ensures |Window(q, xs)| == |Window(q, ks)|
    ensures Pick(Window(q, xs), Window(q, ks), id) <= Window(q, Pick(xs, ks, id))
  {
    WindowIsRange(q, xs);
    WindowIsRange(q, ks);
    var hi := High(q, |ks|);
    PickRange(xs, ks, id, 0, hi);
    PickLength(xs, ks, id);
    WindowIsRange(q, Pick(xs, ks, id));
    CountAll(ks, id, 0);
    CountAll(ks, id, hi);
    assert xs[0..hi] == xs[..hi] && ks[0..hi] == ks[..hi];
  }

  lemma {:induction false} TotalsCompare<T, U(!new)>(q: Own<T>, ids: seq<int>, xs: seq<U>, ks: seq<Option<int>>)
    requires |xs| == |ks| && q.offset == 0 && Distinct(xs)
    ensures |Window(q, xs)| == |Window(q, ks)|
    ensures TotalPicked(ids, Window(q, xs), Window(q, ks)) <= TotalAlone(q, ids, xs, ks)
    ensures (exists id :: id in ids && !Spared(q, xs, ks, id)) ==>
              TotalPicked(ids, Window(q, xs), Window(q, ks)) < TotalAlone(q, ids, xs, ks)
    decreases |ids|
  {
    hide Spared, Window;
    LimitNeverAdds(q, xs, ks, 0);
    if ids != [] {
      LimitNeverAdds(q, xs, ks, ids[0]);
      NotSparedIsShorter(q, xs, ks, ids[0]);
      TotalsCompare(q, ids[1..], xs, ks);
    }
  }

  lemma NotSparedIsShorter<T, U(!new)>(q: Own<T>, xs: seq<U>, ks: seq<Option<int>>, id: int)
    requires |xs| == |ks| && q.offset == 0
    ensures |Window(q, xs)| == |Window(q, ks)|
    ensures !Spared(q, xs, ks, id) ==> |Pick(Window(q, xs), Window(q, ks), id)| < |Window(q, Pick(xs, ks, id))|
  {
    hide Window;
    LimitNeverAdds(q, xs, ks, id);
  }

  /** A limit that more rows match, and under more than one key: the batch returns as many rows
      as the limit says, the queries for the single keys return more. */
  lemma LimitLosesRows<T, U(!new)>(q: Own<T>, xs: seq<U>, ks: seq<Option<int>>)
    requires |xs| == |ks| && Distinct(xs) && None !in ks && q.limit > 0 && q.offset == 0
    requires |ks| > q.limit && !OneKey(ks)
    ensures |Window(q, xs)| == q.limit < TotalAlone(q, DistinctKeys(ks), xs, ks)
  {
    LimitExactly(q, ks);
    SparesExactly(q, xs, ks);
    hide Spared, Undisturbed, DistinctKeys, OneKey;
    var ids := DistinctKeys(ks);
    TotalsCompare(q, ids, xs, ks);
    var kept := Window(q, ks);
    forall n | 0 <= n < |kept| ensures kept[n].Some? && kept[n].value in ids {
      assert kept[n] == ks[n] && ks[n] in ks;
    }
    SharesPartition(ids, Window(q, xs), kept);
  }

  // ----- windows on a query

  /** All rows a keyed query matches, in its order, before its window. */
  function Matching<T>(q: Own<T>, key: T -> Option<int>, ids: seq<int>, table: seq<T>): seq<T>
  {
    Arrange(q.order, Filter(q.preds + [KeyIn(key, ids)], table))
  }

  lemma SelectIsWindow<T>(q: Own<T>, key: T -> Option<int>, ids: seq<int>, table: seq<T>)
    ensures Select(q.And(KeyIn(key, ids)), table) == Window(q, Matching(q, key, ids, table))
  {
  }

  /** The rows of one key among the rows of many are the rows its own query matches. */
  lemma MatchingOfOne<T>(q: Own<T>, key: T -> Option<int>, ids: seq<int>, id: int, table: seq<T>)
    requires id in ids
    ensures var all := Matching(q, key, ids, table);
            Pick(all, Keys(key, all), id) == Matching(q, key, [id], table)
  {
    var open := q.(limit := 0, offset := 0);
    var all := Matching(q, key, ids, table);
    PickIsFilter(key, all, id);
    SelectOneOfMany(open, key, ids, id, table);
    SelectIsWindow(open, key, ids, table);
    SelectIsWindow(open, key, [id], table);
  }

  lemma {:induction false} KeysOfRange<T>(key: T -> Option<int>, rows: seq<T>, lo: nat, hi: nat)
    requires lo <= hi <= |rows|
    ensures Keys(key, rows)[lo..hi] == Keys(key, rows[lo..hi])
  {
  }

  lemma WindowOfKeys<T>(q: Own<T>, key: T -> Option<int>, rows: seq<T>)
    ensures Keys(key, Window(q, rows)) == Window(q, Keys(key, rows))
  {
    WindowIsRange(q, rows);
    WindowIsRange(q, Keys(key, rows));
    KeysOfRange(key, rows, Low(q, |rows|), High(q, |rows|));
  }

  lemma MatchingKeys<T>(q: Own<T>, key: T -> Option<int>, ids: seq<int>, table: seq<T>)
    ensures var all := Matching(q, key, ids, table);
            forall n :: 0 <= n < |all| ==> key(all[n]).Some? && key(all[n]).value in ids && all[n] in table
  {
    var all := Matching(q, key, ids, table);
    var ps := q.preds + [KeyIn(key, ids)];
    forall n | 0 <= n < |all| ensures key(all[n]).Some? && key(all[n]).value in ids && all[n] in table {
      assert all[n] in all;
      ArrangeMembers(q.order, Filter(ps, table), all[n]);
      FilterMembers(ps, table, all[n]);
      assert Holds(ps[|q.preds|], all[n]);
    }
  }

  /** One windowed query for many keys gives every key what its own windowed query gives it, if
      and only if the window is undisturbed. */
  lemma WindowedBatchExactly<T(!new)>(q: Own<T>, key: T -> Option<int>, ids: seq<int>, pk: T -> Option<int>, table: seq<T>)
    requires Unique(pk, table)
    ensures (forall id :: id in ids ==> OwnShare(q, key, ids, id, table)) <==>
            Undisturbed(q, Keys(key, Matching(q, key, ids, table)))
  {
    var all := Matching(q, key, ids, table);
    var ks := Keys(key, all);
    MatchingKeys(q, key, ids, table);
    MatchingDistinct(q, key, ids, pk, table);
    hide Matching, Undisturbed, OwnShare, Spared;
    SparesExactly(q, all, ks);
    forall id | id in ids ensures OwnShare(q, key, ids, id, table) <==> Spared(q, all, ks, id) {
      ShareIsSpared(q, key, ids, id, table);
    }
    forall id | id in ids && Some(id) !in ks ensures Spared(q, all, ks, id) {
      AbsentSpared(q, all, ks, id);
    }
    assert forall id :: Some(id) in ks ==> id in ids;
  }

  lemma MatchingDistinct<T(!new)>(q: Own<T>, key: T -> Option<int>, ids: seq<int>, pk: T -> Option<int>, table: seq<T>)
    requires Unique(pk, table)
    ensures Distinct(Matching(q, key, ids, table))
  {
    FilterUnique(pk, q.preds + [KeyIn(key, ids)], table);
    ArrangeUnique(pk, q.order, Filter(q.preds + [KeyIn(key, ids)], table));
  }

  /** Key id gets from the batch what its own query returns. */
  ghost predicate OwnShare<T>(q: Own<T>, key: T -> Option<int>, ids: seq<int>, id: int, table: seq<T>)
  {
    var batch := Select(q.And(KeyIn(key, ids)), table);
    Pick(batch, Keys(key, batch), id) == Select(q.And(KeyIn(key, [id])), table)
  }

  lemma ShareIsSpared<T(!new)>(q: Own<T>, key: T -> Option<int>, ids: seq<int>, id: int, table: seq<T>)
    requires id in ids
    ensures var all := Matching(q, key, ids, table);
            OwnShare(q, key, ids, id, table) <==> Spared(q, all, Keys(key, all), id)
  {
    var all := Matching(q, key, ids, table);
    SelectIsWindow(q, key, ids, table);
    SelectIsWindow(q, key, [id], table);
    MatchingOfOne(q, key, ids, id, table);
    WindowOfKeys(q, key, all);
    hide Matching, Window, Select;
  }

  lemma AbsentSpared<T, U(!new)>(q: Own<T>, xs: seq<U>, ks: seq<Option<int>>, id: int)
    requires |xs| == |ks| && Some(id) !in ks
    ensures Spared(q, xs, ks, id)
  {
    PickNothing(xs, ks, id);
    WindowIsRange(q, xs);
    WindowIsRange(q, ks);
    PickNothing(Window(q, xs), Window(q, ks), id);
  }

  /** How many rows the queries for the single keys return together. */
  function TotalSelected<T>(q: Own<T>, key: T -> Option<int>, ids: seq<int>, table: seq<T>): nat
  {
    if ids == [] then 0
    else |Select(q.And(KeyIn(key, [ids[0]])), table)| + TotalSelected(q, key, ids[1..], table)
  }

  lemma {:induction false} TotalSelectedIsAlone<T>(q: Own<T>, key: T -> Option<int>, ids: seq<int>, among: seq<int>, table: seq<T>)
    requires forall id :: id in ids ==> id in among
    ensures var all := Matching(q, key, among, table);
            TotalSelected(q, key, ids, table) == TotalAlone(q, ids, all, Keys(key, all))
  {
    hide Matching, Window, Select;
    if ids != [] {
      SelectIsWindow(q, key, [ids[0]], table);
      MatchingOfOne(q, key, among, ids[0], table);
      TotalSelectedIsAlone(q, key, ids[1..], among, table);
    }
  }

  /** A limit on the query of an edge, without an offset: it is harmless if and only if it takes all
      matching rows or they have one key; else the batch returns as many rows as the limit says,
      and the queries for the single keys return more. */
  lemma LimitedBatchExactly<T(!new)>(q: Own<T>, key: T -> Option<int>, ids: seq<int>, pk: T -> Option<int>, table: seq<T>)
    requires Unique(pk, table) && q.limit > 0 && q.offset == 0
    ensures var all := Matching(q, key, ids, table);
            var ks := Keys(key, all);
            && ((forall id :: id in ids ==> OwnShare(q, key, ids, id, table)) <==> |all| <= q.limit || OneKey(ks))
            && (|all| > q.limit && !OneKey(ks) ==>
                  |Select(q.And(KeyIn(key, ids)), table)| == q.limit < TotalSelected(q, key, DistinctKeys(ks), table))
  {
    var all := Matching(q, key, ids, table);
    var ks := Keys(key, all);
    WindowedBatchExactly(q, key, ids, pk, table);
    MatchingKeys(q, key, ids, table);
    MatchingDistinct(q, key, ids, pk, table);
    hide Matching, Undisturbed, OwnShare, OneKey, DistinctKeys, Window;
    LimitExactly(q, ks);
    if |all| > q.limit && !OneKey(ks) {
      LimitLosesRows(q, all, ks);
      SelectIsWindow(q, key, ids, table);
      forall id | id in DistinctKeys(ks) ensures id in ids {
        assert Some(id) in ks;
      }
      TotalSelectedIsAlone(q, key, DistinctKeys(ks), ids, table);
    }
  }

  /** An offset without a limit is harmless if and only if it skips all matching rows or they have one key. */
  lemma OffsetBatchExactly<T(!new)>(q: Own<T>, key: T -> Option<int>, ids: seq<int>, pk: T -> Option<int>, table: seq<T>)
    requires Unique(pk, table) && q.limit == 0 && q.offset > 0
    ensures var all := Matching(q, key, ids, table);
            (forall id :: id in ids ==> OwnShare(q, key, ids, id, table)) <==> |all| <= q.offset || OneKey(Keys(key, all))
  {
    WindowedBatchExactly(q, key, ids, pk, table);
    OffsetExactly(q, Keys(key, Matching(q, key, ids, table)));
    hide Matching, Undisturbed, OwnShare, OneKey;
  }
}
