/**
 * Stable sorting by a total preorder, as Python's `list.sort(key=...)` and
 * `sorted(...)` do it: the result is ordered, is a permutation of the input,
 * and elements that compare equal keep their input order.
 */
module Sorting {

  /** `le` is total and transitive: the order Python's `<` induces on sort keys. */
  ghost predicate TotalPreorder<T(!new)>(le: (T, T) -> bool) {
    && (forall a, b :: le(a, b) || le(b, a))
    && (forall a, b, c :: le(a, b) && le(b, c) ==> le(a, c))
  }

  /** Two elements with equal sort keys. */
  predicate Equiv<T>(le: (T, T) -> bool, a: T, b: T) {
    le(a, b) && le(b, a)
  }

  ghost predicate Sorted<T>(le: (T, T) -> bool, s: seq<T>) {
    forall i, j :: 0 <= i < j < |s| ==> le(s[i], s[j])
  }

  /** The elements of `s` whose key equals the key of `p`, in their order in `s`. */
  function Peers<T>(le: (T, T) -> bool, s: seq<T>, p: T): seq<T> {
    if |s| == 0 then []
    else (if Equiv(le, s[0], p) then [s[0]] else []) + Peers(le, s[1..], p)
  }

  lemma {:induction false} PeersAppend<T>(le: (T, T) -> bool, a: seq<T>, b: seq<T>, p: T)
    ensures Peers(le, a + b, p) == Peers(le, a, p) + Peers(le, b, p)
  {
    if |a| == 0 {
      assert a + b == b;
    } else {
      assert a + b == [a[0]] + (a[1..] + b);
      assert a == [a[0]] + a[1..];
      PeersCons(le, a[0], a[1..] + b, p);
      PeersCons(le, a[0], a[1..], p);
      PeersAppend(le, a[1..], b, p);
    }
  }

  /** No element of `s` is equivalent to `p` when all of them lie strictly above `x ~ p`. */
  lemma {:induction false} PeersAbove<T(!new)>(le: (T, T) -> bool, s: seq<T>, x: T, p: T)
    requires TotalPreorder(le)
    requires Equiv(le, x, p)
    requires forall j :: 0 <= j < |s| ==> !le(s[j], x)
    ensures Peers(le, s, p) == []
  {
    if |s| > 0 {
      PeersAbove(le, s[1..], x, p);
    }
  }

  lemma PeersCons<T>(le: (T, T) -> bool, h: T, t: seq<T>, p: T)
    ensures Peers(le, [h] + t, p) == (if Equiv(le, h, p) then [h] else []) + Peers(le, t, p)
  {
    assert ([h] + t)[1..] == t;
  }

  /** Every element of a sorted `s` is above its head, and so is `x` when `le(s[0], x)`. */
  lemma HeadBelowAll<T>(le: (T, T) -> bool, s: seq<T>, x: T, rest: seq<T>)
    requires |s| > 0 && Sorted(le, s) && le(s[0], x)
    requires multiset(rest) == multiset(s[1..]) + multiset{x}
    ensures forall k :: 0 <= k < |rest| ==> le(s[0], rest[k])
  {
    forall k | 0 <= k < |rest|
      ensures le(s[0], rest[k])
    {
      assert rest[k] in multiset(rest);
      if rest[k] != x {
        assert rest[k] in multiset(s[1..]);
        var j :| 0 <= j < |s[1..]| && s[1..][j] == rest[k];
        assert s[j + 1] == rest[k];
      }
    }
  }

  /**
   * Inserts `x` into the sorted `s` after every element whose key is not
   * greater than the key of `x`: the step of a stable insertion sort.
   */
  function Insert<T(!new)>(le: (T, T) -> bool, s: seq<T>, x: T): (r: seq<T>)
    requires TotalPreorder(le)
    requires Sorted(le, s)
    ensures Sorted(le, r)
    ensures multiset(r) == multiset(s) + multiset{x}
    ensures forall p :: Peers(le, r, p) == Peers(le, s, p) + (if Equiv(le, x, p) then [x] else [])
  {
    if |s| == 0 then
      [x]
    else if le(s[0], x) then
      var rest := Insert(le, s[1..], x);
      InsertBehind(le, s, x, rest);
      [s[0]] + rest
    else
      InsertInFront(le, s, x);
      [x] + s
  }

  /** `x` goes after the head of `s`: the head followed by `x` inserted into the tail. */
  lemma InsertBehind<T(!new)>(le: (T, T) -> bool, s: seq<T>, x: T, rest: seq<T>)
    requires TotalPreorder(le)
    requires |s| > 0 && Sorted(le, s) && le(s[0], x)
    requires Sorted(le, rest) && multiset(rest) == multiset(s[1..]) + multiset{x}
    requires forall p :: Peers(le, rest, p) == Peers(le, s[1..], p) + (if Equiv(le, x, p) then [x] else [])
    ensures Sorted(le, [s[0]] + rest)
    ensures multiset([s[0]] + rest) == multiset(s) + multiset{x}
    ensures forall p :: Peers(le, [s[0]] + rest, p) == Peers(le, s, p) + (if Equiv(le, x, p) then [x] else [])
  {
    HeadBelowAll(le, s, x, rest);
    SortedCons(le, s[0], rest);
    assert s == [s[0]] + s[1..];
    assert multiset([s[0]] + rest) == multiset{s[0]} + multiset(rest);
    forall p
      ensures Peers(le, [s[0]] + rest, p) == Peers(le, s, p) + (if Equiv(le, x, p) then [x] else [])
    {
      PeersBehind(le, s, x, rest, p);
    }
  }

  /** A head below every element of a sorted tail keeps it sorted. */
  lemma SortedCons<T>(le: (T, T) -> bool, h: T, t: seq<T>)
    requires Sorted(le, t) && forall k :: 0 <= k < |t| ==> le(h, t[k])
    ensures Sorted(le, [h] + t)
  {
    var all := [h] + t;
    forall i, j | 0 <= i < j < |all|
      ensures le(all[i], all[j])
    {
      assert all[j] == t[j - 1];
      if i > 0 {
        assert all[i] == t[i - 1];
      }
    }
  }

  /** The peers of `p` after putting the head of `s` in front of `rest`. */
  lemma PeersBehind<T>(le: (T, T) -> bool, s: seq<T>, x: T, rest: seq<T>, p: T)
    requires |s| > 0
    requires Peers(le, rest, p) == Peers(le, s[1..], p) + (if Equiv(le, x, p) then [x] else [])
    ensures Peers(le, [s[0]] + rest, p) == Peers(le, s, p) + (if Equiv(le, x, p) then [x] else [])
  {
    PeersCons(le, s[0], rest, p);
    PeersCons(le, s[0], s[1..], p);
    assert s == [s[0]] + s[1..];
  }

  /** `x` goes in front of `s` when it is below the head, so no element of `s` is its peer. */
  lemma InsertInFront<T(!new)>(le: (T, T) -> bool, s: seq<T>, x: T)
    requires TotalPreorder(le)
    requires |s| > 0 && Sorted(le, s) && !le(s[0], x)
    ensures Sorted(le, [x] + s)
    ensures forall p :: Peers(le, [x] + s, p) == Peers(le, s, p) + (if Equiv(le, x, p) then [x] else [])
  {
    forall j | 0 <= j < |s|
      ensures !le(s[j], x)
    {
      if j > 0 {
        assert le(s[0], s[j]);
      }
    }
    forall p
      ensures Peers(le, [x] + s, p) == Peers(le, s, p) + (if Equiv(le, x, p) then [x] else [])
    {
      PeersCons(le, x, s, p);
      if Equiv(le, x, p) {
        PeersAbove(le, s, x, p);
      }
    }
  }

  /** Stable insertion sort: Python's `sorted(xs, key=k)` when `le(a, b)` is `k(a) <= k(b)`. */
  function Sort<T(!new)>(le: (T, T) -> bool, xs: seq<T>): (r: seq<T>)
    requires TotalPreorder(le)
    ensures Sorted(le, r)
    ensures multiset(r) == multiset(xs)
    ensures |r| == |xs|
    ensures forall p :: Peers(le, r, p) == Peers(le, xs, p)
  {
    if |xs| == 0 then
      []
    else
      var init := xs[..|xs| - 1];
      var last := xs[|xs| - 1];
      assert xs == init + [last];
      var sortedInit := Sort(le, init);
      var r := Insert(le, sortedInit, last);
      assert forall p :: Peers(le, r, p) == Peers(le, xs, p) by {
        forall p
          ensures Peers(le, r, p) == Peers(le, xs, p)
        {
          PeersAppend(le, init, [last], p);
        }
      }
      assert |r| == |multiset(r)|;
      r
  }
}
