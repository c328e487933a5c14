/** Filtering a slice without allocating: append to s[:0] while ranging over s. */
module Slices {
  import opened Collections

  function Filter<T>(keep: T -> bool, s: seq<T>): seq<T> {
    if s == [] then []
    else
      var last := s[|s| - 1];
      Filter(keep, s[..|s| - 1]) + if keep(last) then [last] else []
  }

  /** The kept elements overwrite the front of the array; each is written at or before the place it
      was read from, so no element is lost before it is read. */
  method FilterInPlace<T>(a: array<T>, keep: T -> bool) returns (n: nat)
    modifies a
    ensures n <= a.Length && a[..n] == Filter(keep, old(a[..]))
    ensures a[n..] == old(a[n..])
  {
    n := 0;
    ghost var s := a[..];
    for i := 0 to a.Length
      invariant n <= i
      invariant a[..n] == Filter(keep, s[..i])
      invariant a[n..] == s[n..]
    {
      var r := a[i];
      assert r == a[n..][i - n] == s[n..][i - n] == s[i];
      assert s[..i + 1][..i] == s[..i];
      if keep(r) {
        ghost var tail := a[n + 1..];
        a[n] := r;
        assert a[n + 1..] == tail == s[n + 1..];
        n := n + 1;
      }
    }
    assert s[..a.Length] == s;
  }

  /** append(a[:n], extra...): in place when the array has room, else into a new array. */
  method Append<T>(a: array<T>, n: nat, extra: seq<T>) returns (r: seq<T>)
    requires n <= a.Length
    modifies a
    ensures r == old(a[..n]) + extra
  {
    if n + |extra| <= a.Length {
      ghost var kept := a[..n];
      for i := 0 to |extra|
        invariant a[..n + i] == kept + extra[..i]
      {
        a[n + i] := extra[i];
        assert a[..n + i + 1] == a[..n + i] + [extra[i]];
      }
      r := a[..n + |extra|];
    } else {
      r := a[..n] + extra;
    }
  }

  method ToArray<T>(s: seq<T>) returns (a: array<T>)
    ensures fresh(a) && a[..] == s
  {
    a := new T[|s|](i requires 0 <= i < |s| => s[i]);
  }

  /** Filtering a list that is read from a store, in the array it was decoded into. */
  method FilterSlice<T>(s: seq<T>, keep: T -> bool) returns (r: seq<T>)
    ensures r == Filter(keep, s)
  {
    var a := ToArray(s);
    var n := FilterInPlace(a, keep);
    r := a[..n];
  }

  lemma {:induction false} FilterConcat<T>(keep: T -> bool, a: seq<T>, b: seq<T>)
    ensures Filter(keep, a + b) == Filter(keep, a) + Filter(keep, b)
  {
    if b == [] {
      assert a + b == a && Filter(keep, a) + [] == Filter(keep, a);
    } else {
      assert (a + b)[..|a + b| - 1] == a + b[..|b| - 1];
      FilterConcat(keep, a, b[..|b| - 1]);
    }
  }

  lemma {:induction false} FilterMembers<T>(keep: T -> bool, s: seq<T>, x: T)
    ensures x in Filter(keep, s) <==> x in s && keep(x)
  {
    if s != [] {
      assert s == s[..|s| - 1] + [s[|s| - 1]];
      FilterMembers(keep, s[..|s| - 1], x);
    }
  }

  lemma {:induction false} FilterDistinct<T(!new), K>(keep: T -> bool, key: T -> K, s: seq<T>)
    requires DistinctBy(key, s)
    ensures DistinctBy(key, Filter(keep, s))
  {
    if s != [] {
      var init, last := s[..|s| - 1], s[|s| - 1];
      FilterDistinct(keep, key, init);
      var kept := Filter(keep, init);
      forall i | 0 <= i < |kept| ensures key(kept[i]) != key(last) {
        FilterMembers(keep, init, kept[i]);
        var k :| 0 <= k < |init| && init[k] == kept[i];
        assert s[k] == init[k];
      }
    }
  }

  lemma {:induction false} FilterAll<T>(keep: T -> bool, s: seq<T>)
    requires forall i :: 0 <= i < |s| ==> keep(s[i])
    ensures Filter(keep, s) == s
  {
    if s != [] {
      assert s == s[..|s| - 1] + [s[|s| - 1]];
      FilterAll(keep, s[..|s| - 1]);
    }
  }

  lemma {:induction false} FilterNone<T>(keep: T -> bool, s: seq<T>)
    requires forall i :: 0 <= i < |s| ==> !keep(s[i])
    ensures Filter(keep, s) == []
  {
    if s != [] { FilterNone(keep, s[..|s| - 1]); }
  }

  /** Two filters of which the second keeps only what the first keeps, or never what it keeps. */
  lemma {:induction false} FilterTwice<T>(first: T -> bool, second: T -> bool, s: seq<T>)
    ensures (forall x :: second(x) ==> first(x)) ==> Filter(second, Filter(first, s)) == Filter(second, s)
    ensures (forall x :: second(x) ==> !first(x)) ==> Filter(second, Filter(first, s)) == []
  {
    if s != [] {
      var init, last := s[..|s| - 1], s[|s| - 1];
      FilterTwice(first, second, init);
      FilterConcat(second, Filter(first, init), if first(last) then [last] else []);
      assert [last][..0] == [];
      assert Filter(second, [last]) == if second(last) then [last] else [];
    }
  }
}
