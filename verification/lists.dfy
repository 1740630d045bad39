/**
 * Order-preserving "map and drop" over a sequence: the shape of every loop
 * in the pipeline that turns a sorted list of files into records and skips
 * the files it cannot use.
 */
module Lists {
  import opened Optional
  import Sorting

  /** The values `f` yields on `xs`, in the order of `xs`, skipping the `None`s. */
  function FilterMap<A, B>(xs: seq<A>, f: A -> Option<B>): (r: seq<B>)
    ensures |r| <= |xs|
    ensures forall j :: 0 <= j < |r| ==> exists i :: 0 <= i < |xs| && f(xs[i]) == Some(r[j])
    ensures forall i :: 0 <= i < |xs| && f(xs[i]).Some? ==> f(xs[i]).value in r
    ensures (forall i :: 0 <= i < |xs| ==> f(xs[i]).Some?) ==>
              |r| == |xs| && forall i :: 0 <= i < |xs| ==> r[i] == f(xs[i]).value
  {
    if |xs| == 0 then []
    else
      var rest := FilterMap(xs[1..], f);
      var head := if f(xs[0]).Some? then [f(xs[0]).value] else [];
      FilterMapStepFrom(xs, f, head, rest);
      FilterMapStepCovers(xs, f, head, rest);
      head + rest
  }

  /** Every value of `head + rest` comes from some element of `xs`. */
  lemma FilterMapStepFrom<A, B>(xs: seq<A>, f: A -> Option<B>, head: seq<B>, rest: seq<B>)
    requires |xs| > 0 && head == if f(xs[0]).Some? then [f(xs[0]).value] else []
    requires forall j :: 0 <= j < |rest| ==> exists i :: 0 <= i < |xs[1..]| && f(xs[1..][i]) == Some(rest[j])
    ensures forall j :: 0 <= j < |head + rest| ==> exists i :: 0 <= i < |xs| && f(xs[i]) == Some((head + rest)[j])
  {
    var r := head + rest;
    forall j | 0 <= j < |r|
      ensures exists i :: 0 <= i < |xs| && f(xs[i]) == Some(r[j])
    {
      if j < |head| {
        assert f(xs[0]) == Some(r[j]);
      } else {
        var i :| 0 <= i < |xs[1..]| && f(xs[1..][i]) == Some(rest[j - |head|]);
        assert f(xs[i + 1]) == Some(r[j]);
      }
    }
  }

  /** Every value `f` yields on `xs` is in `head + rest`. */
  lemma FilterMapStepCovers<A, B>(xs: seq<A>, f: A -> Option<B>, head: seq<B>, rest: seq<B>)
    requires |xs| > 0 && head == if f(xs[0]).Some? then [f(xs[0]).value] else []
    requires forall i :: 0 <= i < |xs[1..]| && f(xs[1..][i]).Some? ==> f(xs[1..][i]).value in rest
    ensures forall i :: 0 <= i < |xs| && f(xs[i]).Some? ==> f(xs[i]).value in head + rest
  {
    forall i | 0 <= i < |xs| && f(xs[i]).Some?
      ensures f(xs[i]).value in head + rest
    {
      if i > 0 {
        assert xs[1..][i - 1] == xs[i];
      }
    }
  }

  /** Unfolding one step of `FilterMap`. */
  lemma FilterMapCons<A, B>(xs: seq<A>, f: A -> Option<B>)
    requires |xs| > 0
    ensures f(xs[0]).None? ==> FilterMap(xs, f) == FilterMap(xs[1..], f)
    ensures f(xs[0]).Some? ==> FilterMap(xs, f) == [f(xs[0]).value] + FilterMap(xs[1..], f)
  {
  }

  /** The elements of `xs` that satisfy `p`, in their order in `xs`. */
  function Filter<A>(xs: seq<A>, p: A -> bool): (r: seq<A>)
    ensures |r| <= |xs|
    ensures forall k :: 0 <= k < |r| ==> r[k] in xs && p(r[k])
    ensures forall i :: 0 <= i < |xs| && p(xs[i]) ==> xs[i] in r
  {
    if |xs| == 0 then []
    else
      var r := (if p(xs[0]) then [xs[0]] else []) + Filter(xs[1..], p);
      assert forall i :: 0 < i < |xs| ==> xs[i] == xs[1..][i - 1];
      r
  }

  /** The indices from `i` on of the elements of `xs` that satisfy `p`, in increasing order. */
  function Positions<A>(xs: seq<A>, p: A -> bool, i: nat): (r: seq<nat>)
    requires i <= |xs|
    ensures forall k :: 0 <= k < |r| ==> i <= r[k] < |xs| && p(xs[r[k]])
    ensures forall k, l :: 0 <= k < l < |r| ==> r[k] < r[l]
    ensures forall j :: i <= j < |xs| && p(xs[j]) ==> j in r
    decreases |xs| - i
  {
    if i == |xs| then []
    else
      var rest := Positions(xs, p, i + 1);
      if p(xs[i]) then [i] + rest else rest
  }

  /**
   * Filtering `xs[i..]` lists exactly the elements at `Positions(xs, p, i)`:
   * the elements that satisfy `p`, each once, in their order in `xs`.
   */
  lemma {:induction false} FilterAtPositions<A>(xs: seq<A>, p: A -> bool, i: nat)
    requires i <= |xs|
    ensures |Filter(xs[i..], p)| == |Positions(xs, p, i)|
    ensures forall k :: 0 <= k < |Filter(xs[i..], p)| ==> Filter(xs[i..], p)[k] == xs[Positions(xs, p, i)[k]]
    decreases |xs| - i
  {
    if i < |xs| {
      FilterAtPositions(xs, p, i + 1);
      assert xs[i..][1..] == xs[i + 1..];
      FilterCons(xs[i..], p);
      PickCons(xs, i, p(xs[i]), Filter(xs[i + 1..], p), Positions(xs, p, i + 1));
    }
  }

  /** Putting `xs[i]` in front of picked elements and `i` in front of their indices keeps them in step. */
  lemma PickCons<A>(xs: seq<A>, i: nat, keep: bool, picked: seq<A>, idx: seq<nat>)
    requires i < |xs| && |picked| == |idx|
    requires forall k :: 0 <= k < |idx| ==> idx[k] < |xs| && picked[k] == xs[idx[k]]
    ensures var head := if keep then [xs[i]] else [];
            var pos := if keep then [i] else [];
            && |head + picked| == |pos + idx|
            && forall k :: 0 <= k < |pos + idx| ==> (pos + idx)[k] < |xs| && (head + picked)[k] == xs[(pos + idx)[k]]
  {
  }

  /** Filtering keeps a sorted sequence sorted. */
  lemma {:induction false} FilterSorted<A>(le: (A, A) -> bool, xs: seq<A>, p: A -> bool)
    requires Sorting.Sorted(le, xs)
    ensures Sorting.Sorted(le, Filter(xs, p))
  {
    if |xs| > 0 {
      var tail := xs[1..];
      assert Sorting.Sorted(le, tail);
      FilterSorted(le, tail, p);
      var rest := Filter(tail, p);
      if p(xs[0]) {
        forall k | 0 <= k < |rest|
          ensures le(xs[0], rest[k])
        {
          var i :| 0 <= i < |tail| && tail[i] == rest[k];
          assert xs[i + 1] == rest[k];
        }
        SortedCons(le, xs[0], rest);
      }
    }
  }

  /** The `key`s of a sequence. */
  function Keys<A, B>(ys: seq<B>, key: B -> A): (ks: seq<A>)
    ensures |ks| == |ys|
    ensures forall k :: 0 <= k < |ys| ==> ks[k] == key(ys[k])
  {
    seq(|ys|, k requires 0 <= k < |ys| => key(ys[k]))
  }

  /**
   * When the value `f` yields on each accepted element `x` has key `g(x)`,
   * the kept values' keys are the `g`-images of the accepted elements
   * (those satisfying `p`), in their order.
   */
  lemma {:induction false} FilterMapKeys<A, B, C>(xs: seq<A>, f: A -> Option<B>, p: A -> bool, key: B -> C, g: A -> C)
    requires forall x :: p(x) == f(x).Some?
    requires forall x :: f(x).Some? ==> key(f(x).value) == g(x)
    ensures Keys(FilterMap(xs, f), key) == Keys(Filter(xs, p), g)
  {
    if |xs| > 0 {
      FilterMapKeys(xs[1..], f, p, key, g);
      FilterMapCons(xs, f);
      FilterCons(xs, p);
      if f(xs[0]).Some? {
        KeysCons(f(xs[0]).value, FilterMap(xs[1..], f), key);
        KeysCons(xs[0], Filter(xs[1..], p), g);
      }
    }
  }

  lemma FilterCons<A>(xs: seq<A>, p: A -> bool)
    requires |xs| > 0
    ensures !p(xs[0]) ==> Filter(xs, p) == Filter(xs[1..], p)
    ensures p(xs[0]) ==> Filter(xs, p) == [xs[0]] + Filter(xs[1..], p)
  {
  }

  lemma KeysCons<A, B>(y: B, ys: seq<B>, key: B -> A)
    ensures Keys([y] + ys, key) == [key(y)] + Keys(ys, key)
  {
  }

  lemma SortedCons<T>(le: (T, T) -> bool, x: T, s: seq<T>)
    requires Sorting.Sorted(le, s)
    requires forall k :: 0 <= k < |s| ==> le(x, s[k])
    ensures Sorting.Sorted(le, [x] + s)
  {
    var t := [x] + s;
    forall i, j | 0 <= i < j < |t|
      ensures le(t[i], t[j])
    {
      if i > 0 {
        assert t[i] == s[i - 1];
      }
      assert t[j] == s[j - 1];
    }
  }

  lemma KeysAppend<A, B>(a: seq<B>, b: seq<B>, key: B -> A)
    ensures Keys(a + b, key) == Keys(a, key) + Keys(b, key)
  {
  }

  /** Rearranging a sequence rearranges its keys the same way. */
  lemma {:induction false} MultisetKeys<A, B>(xs: seq<B>, ys: seq<B>, key: B -> A)
    requires multiset(xs) == multiset(ys)
    ensures multiset(Keys(xs, key)) == multiset(Keys(ys, key))
  {
    if |xs| > 0 {
      var x := xs[0];
      assert x in multiset(ys);
      var i :| 0 <= i < |ys| && ys[i] == x;
      var rest := ys[..i] + ys[i + 1..];
      assert ys == ys[..i] + [x] + ys[i + 1..];
      assert xs == [x] + xs[1..];
      assert multiset(rest) == multiset(ys) - multiset{x};
      MultisetKeys(xs[1..], rest, key);
      KeysAppend([x], xs[1..], key);
      KeysAppend(ys[..i] + [x], ys[i + 1..], key);
      KeysAppend(ys[..i], [x], key);
      KeysAppend(ys[..i], ys[i + 1..], key);
    }
  }

  /** The sequences of `xss`, one after another. */
  function Flatten<T>(xss: seq<seq<T>>): seq<T> {
    if |xss| == 0 then [] else Flatten(xss[..|xss| - 1]) + xss[|xss| - 1]
  }

  /** Element `j` of `xs` is element `j + 1` once `xs` is framed by `a` and `b`. */
  lemma Framed<T>(a: T, xs: seq<T>, b: T, j: nat)
    requires j < |xs|
    ensures |[a] + xs + [b]| == |xs| + 2
    ensures ([a] + xs + [b])[j + 1] == xs[j]
  {
  }

  lemma {:induction false} FlattenLength<T>(xss: seq<seq<T>>, width: nat)
    requires forall j :: 0 <= j < |xss| ==> |xss[j]| == width
    ensures |Flatten(xss)| == width * |xss|
  {
    if |xss| > 0 {
      FlattenLength(xss[..|xss| - 1], width);
    }
  }

  /** When every piece has `width` elements, element `k` of piece `i` sits at `width * i + k`. */
  lemma {:induction false} FlattenAt<T>(xss: seq<seq<T>>, width: nat, i: nat, k: nat)
    requires forall j :: 0 <= j < |xss| ==> |xss[j]| == width
    requires i < |xss| && k < width
    ensures |Flatten(xss)| == width * |xss|
    ensures width * i + k < |Flatten(xss)| && Flatten(xss)[width * i + k] == xss[i][k]
  {
    RowBound(width, i, k, |xss|);
    var n := |xss|;
    var init := xss[..n - 1];
    assert forall j :: 0 <= j < |init| ==> init[j] == xss[j];
    FlattenLength(xss, width);
    FlattenLength(init, width);
    var flat := Flatten(init);
    assert Flatten(xss) == flat + xss[n - 1];
    var pos := width * i + k;
    if i < n - 1 {
      FlattenAt(init, width, i, k);
      RowBound(width, i, k, n - 1);
      assert Flatten(xss)[pos] == flat[pos];
    } else {
      assert pos == |flat| + k;
      assert Flatten(xss)[pos] == xss[n - 1][k];
    }
  }

  /** Position `k` of row `i` comes before row `m` when `i < m`. */
  lemma RowBound(width: nat, i: nat, k: nat, m: nat)
    requires k < width && i < m
    ensures width * i + k < width * m
  {
    assert width * (i + 1) == width * i + width;
    assert width * (i + 1) <= width * m;
  }
}
