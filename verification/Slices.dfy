/** Go slices: the first len elements of a backing array, which append extends in place while
    there is room. */
module Slices {
  datatype Slice<T> = Slice(data: array<T>, len: nat)

  ghost predicate Backed<T>(s: Slice<T>)
  {
    s.len <= s.data.Length
  }

  function Elems<T>(s: Slice<T>): (xs: seq<T>)
    requires Backed(s)
    reads s.data
    ensures |xs| == s.len
  {
    s.data[..s.len]
  }

  /** A slice without room. */
  method Empty<T>() returns (s: Slice<T>)
    ensures Backed(s) && fresh(s.data) && Elems(s) == []
  {
    var data := new T[0];
    s := Slice(data, 0);
  }

  /** append(s, x): in place when the array has room, so that every slice sharing the array sees
      the write; else in a larger copy. */
  method Append<T>(s: Slice<T>, x: T) returns (r: Slice<T>)
    requires Backed(s)
    modifies s.data
    ensures Backed(r) && Elems(r) == old(Elems(s)) + [x]
    ensures if s.len < s.data.Length then r.data == s.data else fresh(r.data)
    ensures s.data[..s.len] == old(s.data[..s.len])
  {
    if s.len < s.data.Length {
      s.data[s.len] := x;
      r := Slice(s.data, s.len + 1);
    } else {
      var room :| room >= 0;
      ghost var was := Elems(s);
      var cur := s.data[..];
      var data := new T[s.len + 1 + room](i => if 0 <= i < |cur| then cur[i] else x);
      r := Slice(data, s.len + 1);
      assert Elems(r)[..s.len] == was;
    }
  }

  /** append([]T{}, s...): the same elements in an array of their own, with or without room. */
  method Copied<T>(s: Slice<T>) returns (r: Slice<T>)
    requires Backed(s)
    ensures Backed(r) && fresh(r.data) && Elems(r) == Elems(s)
  {
    if s.len == 0 {
      r := Empty();
      return;
    }
    var room :| room >= 0;
    var cur := Elems(s);
    var data := new T[s.len + room](i => if 0 <= i < |cur| then cur[i] else cur[0]);
    r := Slice(data, s.len);
  }

  /** append(s, xs...). */
  method AppendAll<T>(s: Slice<T>, xs: seq<T>) returns (r: Slice<T>)
    requires Backed(s)
    modifies s.data
    ensures Backed(r) && Elems(r) == old(Elems(s)) + xs
    ensures r.data == s.data || fresh(r.data)
  {
    r := s;
    for i := 0 to |xs|
      invariant Backed(r) && Elems(r) == old(Elems(s)) + xs[..i]
      invariant r.data == s.data || fresh(r.data)
    {
      r := Append(r, xs[i]);
    }
  }

  /** Why a clone must copy: after sharing a slice with room, appending to the one writes over
      what the other appended. */
  method SharedAppendOverwrites<T>(s: Slice<T>, x: T, y: T) returns (a: Slice<T>, b: Slice<T>)
    requires s.len < s.data.Length
    modifies s.data
    ensures Backed(a) && Backed(b) && Elems(a) == Elems(b) == old(Elems(s)) + [y]
  {
    a := Append(s, x);
    b := Append(s, y);
  }
}
