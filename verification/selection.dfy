/** Python's filtering list comprehension `[f(x) for x in xs if keep(x)]`, the positions it keeps,
    and the slice `xs[:n]`. Both tip parsers build their result lists this way. */
module Selection {

  /** `[f(x) for x in xs if keep(x)]`, written as the append loop that builds it. */
  function FilterMap<T, U>(xs: seq<T>, keep: T -> bool, f: T -> U): (r: seq<U>)
    ensures |r| <= |xs|
  {
    if xs == [] then []
    else
      var n := |xs| - 1;
      FilterMap(xs[..n], keep, f) + (if keep(xs[n]) then [f(xs[n])] else [])
  }

  /** One more element of the input appends at most one element to the comprehension. */
  lemma FilterMapStep<T, U>(xs: seq<T>, keep: T -> bool, f: T -> U, i: nat)
    requires i < |xs|
    ensures FilterMap(xs[..i + 1], keep, f)
            == FilterMap(xs[..i], keep, f) + (if keep(xs[i]) then [f(xs[i])] else [])
  {
    assert xs[..i + 1][..i] == xs[..i];
  }

  /** The positions of the elements of `xs` that satisfy `keep`: exactly those, each once, in
      increasing order. */
  function Positions<T>(xs: seq<T>, keep: T -> bool): (ps: seq<nat>)
    ensures forall k :: 0 <= k < |ps| ==> ps[k] < |xs| && keep(xs[ps[k]])
    ensures forall k1, k2 :: 0 <= k1 < k2 < |ps| ==> ps[k1] < ps[k2]
    ensures forall j :: 0 <= j < |xs| && keep(xs[j]) ==> j in ps
  {
    if xs == [] then []
    else
      var n := |xs| - 1;
      var front := Positions(xs[..n], keep);
      assert forall k :: 0 <= k < |front| ==> xs[..n][front[k]] == xs[front[k]];
      assert forall j :: 0 <= j < n ==> xs[..n][j] == xs[j];
      front + (if keep(xs[n]) then [n] else [])
  }

  /** The comprehension is the kept elements, mapped by `f`, in their original order, and
      nothing else. */
  lemma {:induction false} FilterMapAt<T, U>(xs: seq<T>, keep: T -> bool, f: T -> U)
    ensures |FilterMap(xs, keep, f)| == |Positions(xs, keep)|
    ensures forall k :: 0 <= k < |Positions(xs, keep)| ==>
              FilterMap(xs, keep, f)[k] == f(xs[Positions(xs, keep)[k]])
  {
    if xs != [] {
      var n := |xs| - 1;
      FilterMapAt(xs[..n], keep, f);
      var front := Positions(xs[..n], keep);
      assert Positions(xs, keep) == front + (if keep(xs[n]) then [n] else []);
      assert FilterMap(xs, keep, f)
             == FilterMap(xs[..n], keep, f) + (if keep(xs[n]) then [f(xs[n])] else []);
      assert forall k :: 0 <= k < |front| ==> xs[..n][front[k]] == xs[front[k]];
    }
  }

  /** Two maps that agree on every kept element give the same comprehension. */
  lemma {:induction false} FilterMapAgree<T, U>(xs: seq<T>, keep: T -> bool, f: T -> U, g: T -> U)
    requires forall j :: 0 <= j < |xs| && keep(xs[j]) ==> f(xs[j]) == g(xs[j])
    ensures FilterMap(xs, keep, f) == FilterMap(xs, keep, g)
  {
    if xs != [] {
      var n := |xs| - 1;
      assert forall j :: 0 <= j < n ==> xs[..n][j] == xs[j];
      FilterMapAgree(xs[..n], keep, f, g);
    }
  }

  /** When every element is kept, the comprehension is the element-wise map. */
  lemma {:induction false} FilterMapKeepsAll<T, U>(xs: seq<T>, keep: T -> bool, f: T -> U, ys: seq<U>)
    requires |xs| == |ys|
    requires forall i :: 0 <= i < |xs| ==> keep(xs[i]) && f(xs[i]) == ys[i]
    ensures FilterMap(xs, keep, f) == ys
  {
    if xs != [] {
      var n := |xs| - 1;
      assert forall i :: 0 <= i < n ==> xs[..n][i] == xs[i] && ys[..n][i] == ys[i];
      FilterMapKeepsAll(xs[..n], keep, f, ys[..n]);
      assert ys[..n] + [ys[n]] == ys;
    }
  }

  /** `xs[:n]` for a non-negative `n`: the first `n` elements, or all of them when there are
      fewer; never padded. */
  function Take<T>(xs: seq<T>, n: nat): (r: seq<T>)
    ensures |r| == if |xs| < n then |xs| else n
    ensures r <= xs
  {
    if |xs| <= n then xs else xs[..n]
  }
}
