/** Searching and `filter_map` over sequences, shared by the bridge and the converters. */
module Seqs {
  import opened Wrappers

  /** Index of the first occurrence of `x` (`iter().position(|y| y == x)`). */
  function IndexOf<T(==)>(s: seq<T>, x: T): (r: Option<nat>)
    ensures r.None? <==> x !in s
    ensures r.Some? ==> r.value < |s| && s[r.value] == x && x !in s[..r.value]
  {
    if s == [] then None
    else if s[0] == x then Some(0)
    else match IndexOf(s[1..], x)
      case None => None
      case Some(k) =>
        assert s[..k + 1] == [s[0]] + s[1..][..k];
        Some(k + 1)
  }

  /** The first occurrence of `x` is what `IndexOf` reports. */
  lemma {:induction false} IndexOfFirst<T>(s: seq<T>, x: T, k: nat)
    requires k < |s| && s[k] == x && x !in s[..k]
    ensures IndexOf(s, x) == Some(k)
  {
    if k > 0 {
      assert s[0] == s[..k][0];
      assert s[1..][..k - 1] == s[..k][1..];
      IndexOfFirst(s[1..], x, k - 1);
    }
  }

  /** Rust's `iter().filter_map(f).collect()`: the present results, in input order. */
  function FilterMap<A, B>(xs: seq<A>, f: A -> Option<B>): (r: seq<B>)
    ensures |r| <= |xs|
  {
    if xs == [] then []
    else (if f(xs[0]).Some? then [f(xs[0]).value] else []) + FilterMap(xs[1..], f)
  }

  /** `filter_map` over a concatenation is the concatenation of the two results, so input order is kept. */
  lemma {:induction false} FilterMapAppend<A, B>(xs: seq<A>, ys: seq<A>, f: A -> Option<B>)
    ensures FilterMap(xs + ys, f) == FilterMap(xs, f) + FilterMap(ys, f)
  {
    if xs != [] {
      assert (xs + ys)[0] == xs[0];
      assert (xs + ys)[1..] == xs[1..] + ys;
      FilterMapAppend(xs[1..], ys, f);
    } else {
      assert xs + ys == ys;
    }
  }

  /** An item `f` rejects contributes nothing; its neighbours keep their order. */
  lemma {:induction false} FilterMapSkip<A, B>(xs: seq<A>, x: A, ys: seq<A>, f: A -> Option<B>)
    requires f(x).None?
    ensures FilterMap(xs + [x] + ys, f) == FilterMap(xs, f) + FilterMap(ys, f)
  {
    FilterMapAppend(xs + [x], ys, f);
    FilterMapAppend(xs, [x], f);
    assert [x][1..] == [];
  }

  /** Every result of `filter_map` is what `f` gave for some item. */
  lemma {:induction false} FilterMapFrom<A, B>(xs: seq<A>, f: A -> Option<B>)
    ensures forall k :: 0 <= k < |FilterMap(xs, f)| ==> exists i :: 0 <= i < |xs| && f(xs[i]) == Some(FilterMap(xs, f)[k])
  {
    if xs != [] {
      FilterMapFrom(xs[1..], f);
      var head := if f(xs[0]).Some? then [f(xs[0]).value] else [];
      assert FilterMap(xs, f) == head + FilterMap(xs[1..], f);
      forall k | 0 <= k < |FilterMap(xs, f)|
        ensures exists i :: 0 <= i < |xs| && f(xs[i]) == Some(FilterMap(xs, f)[k])
      {
        if k < |head| {
          assert f(xs[0]) == Some(FilterMap(xs, f)[k]);
        } else {
          assert FilterMap(xs, f)[k] == FilterMap(xs[1..], f)[k - |head|];
          var i :| 0 <= i < |xs[1..]| && f(xs[1..][i]) == Some(FilterMap(xs[1..], f)[k - |head|]);
          assert xs[1..][i] == xs[i + 1];
        }
      }
    } else {
      assert FilterMap(xs, f) == [];
    }
  }

  /** When `f` accepts every item, `filter_map` is `map`: nothing is dropped and positions are kept. */
  lemma {:induction false} FilterMapAll<A, B>(xs: seq<A>, f: A -> Option<B>)
    requires forall i :: 0 <= i < |xs| ==> f(xs[i]).Some?
    ensures |FilterMap(xs, f)| == |xs|
    ensures forall i :: 0 <= i < |xs| ==> FilterMap(xs, f)[i] == f(xs[i]).value
  {
    if xs != [] {
      FilterMapAll(xs[1..], f);
    }
  }

  /** When `f` rejects every item, `filter_map` gives nothing. */
  lemma {:induction false} FilterMapNone<A, B>(xs: seq<A>, f: A -> Option<B>)
    requires forall i :: 0 <= i < |xs| ==> f(xs[i]).None?
    ensures FilterMap(xs, f) == []
  {
    if xs != [] {
      FilterMapNone(xs[1..], f);
    }
  }
}
