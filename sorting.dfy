/** The ordering `fetch_events` gets from Python's `sorted` over the
    (parsed, raw) pairs: a stable sort by an integer key, ascending, or
    descending when `reverse` is set (Python keeps equal keys in their
    original order in both directions). The order is given as the list of
    original positions, so that the two parallel lists can be permuted
    alike. */
module Sorting {

  /** `o` lists every position below `n` exactly once. */
  predicate IsPermutation(o: seq<nat>, n: nat)
  {
    |o| == n &&
    (forall i :: 0 <= i < |o| ==> o[i] < n) &&
    (forall i, j :: 0 <= i < j < |o| ==> o[i] != o[j])
  }

  predicate InRange(o: seq<nat>, n: nat)
  {
    forall i :: 0 <= i < |o| ==> o[i] < n
  }

  /** Keys read along `o` never go down, and positions with equal keys
      keep their original order. */
  predicate SortedStable(keys: seq<int>, o: seq<nat>)
  {
    InRange(o, |keys|) &&
    forall i, j :: 0 <= i < j < |o| ==>
      keys[o[i]] <= keys[o[j]] && (keys[o[i]] == keys[o[j]] ==> o[i] < o[j])
  }

  /** Puts position `x` before the first entry with a larger key. */
  function Insert(keys: seq<int>, o: seq<nat>, x: nat): (r: seq<nat>)
    requires x < |keys| && InRange(o, |keys|)
    ensures |r| == |o| + 1 && InRange(r, |keys|)
    ensures multiset(r) == multiset(o) + multiset{x}
    ensures forall k :: 0 <= k < |r| ==> r[k] == x || r[k] in o
    decreases |o|
  {
    if |o| == 0 then [x]
    else if keys[x] < keys[o[0]] then [x] + o
    else
      assert o == [o[0]] + o[1..];
      [o[0]] + Insert(keys, o[1..], x)
  }

  /** Insertion sort of the positions below `m`. */
  function OrderOf(keys: seq<int>, m: nat): (o: seq<nat>)
    requires m <= |keys|
    ensures |o| == m && InRange(o, |keys|)
  {
    if m == 0 then [] else Insert(keys, OrderOf(keys, m - 1), m - 1)
  }

  /** The positions of `keys` in ascending key order, ties in original
      order. */
  function SortOrder(keys: seq<int>): seq<nat>
  {
    OrderOf(keys, |keys|)
  }

  /** `sorted(..., reverse=True)`: descending, ties in original order. */
  function Negated(keys: seq<int>): (r: seq<int>)
    ensures |r| == |keys| && forall i :: 0 <= i < |keys| ==> r[i] == -keys[i]
  {
    seq(|keys|, i requires 0 <= i < |keys| => -keys[i])
  }

  function SortOrderBy(keys: seq<int>, reverse: bool): seq<nat>
  {
    if reverse then SortOrder(Negated(keys)) else SortOrder(keys)
  }

  /** `a` placed in front of a sorted, stable order stays sorted and stable
      when it sorts before every entry. */
  lemma SortedCons(keys: seq<int>, a: nat, t: seq<nat>)
    requires a < |keys| && InRange(t, |keys|)
    requires SortedStable(keys, t)
    requires forall k :: 0 <= k < |t| ==> keys[a] <= keys[t[k]] && (keys[a] == keys[t[k]] ==> a < t[k])
    ensures SortedStable(keys, [a] + t)
  {
    var r := [a] + t;
    forall i, j | 0 <= i < j < |r|
      ensures keys[r[i]] <= keys[r[j]] && (keys[r[i]] == keys[r[j]] ==> r[i] < r[j])
    {
      assert r[j] == t[j - 1];
      if i > 0 {
        assert r[i] == t[i - 1];
      }
    }
  }

  /** Inserting keeps the order ascending and stable, given that `x` comes
      after every position already placed. */
  lemma {:induction false} InsertSorted(keys: seq<int>, o: seq<nat>, x: nat)
    requires x < |keys| && InRange(o, |keys|)
    requires SortedStable(keys, o)
    requires forall i :: 0 <= i < |o| ==> o[i] < x
    ensures SortedStable(keys, Insert(keys, o, x))
    decreases |o|
  {
    if |o| == 0 {
    } else if keys[x] < keys[o[0]] {
      forall k | 0 <= k < |o| ensures keys[x] <= keys[o[k]] && (keys[x] == keys[o[k]] ==> x < o[k]) {
        assert keys[o[0]] <= keys[o[k]];
      }
      SortedCons(keys, x, o);
    } else {
      var rest := o[1..];
      var t := Insert(keys, rest, x);
      assert SortedStable(keys, rest) by {
        forall i, j | 0 <= i < j < |rest|
          ensures keys[rest[i]] <= keys[rest[j]] && (keys[rest[i]] == keys[rest[j]] ==> rest[i] < rest[j])
        {
          assert rest[i] == o[i + 1] && rest[j] == o[j + 1];
        }
      }
      InsertSorted(keys, rest, x);
      forall k | 0 <= k < |t|
        ensures keys[o[0]] <= keys[t[k]] && (keys[o[0]] == keys[t[k]] ==> o[0] < t[k])
      {
        if t[k] != x {
          var m :| 0 <= m < |rest| && rest[m] == t[k];
          assert o[m + 1] == t[k];
        }
      }
      SortedCons(keys, o[0], t);
    }
  }

  lemma {:induction false} OrderOfMultiset(keys: seq<int>, m: nat)
    requires m <= |keys|
    ensures multiset(OrderOf(keys, m)) == multiset(Range(m))
  {
    if m > 0 {
      OrderOfMultiset(keys, m - 1);
      assert Range(m) == Range(m - 1) + [m - 1];
    }
  }

  lemma OrderOfBelow(keys: seq<int>, m: nat)
    requires m <= |keys|
    ensures forall i :: 0 <= i < m ==> OrderOf(keys, m)[i] < m
  {
    var o := OrderOf(keys, m);
    OrderOfMultiset(keys, m);
    forall i | 0 <= i < m ensures o[i] < m {
      assert o[i] in multiset(Range(m));
      assert o[i] in Range(m);
    }
  }

  lemma {:induction false} OrderOfSorted(keys: seq<int>, m: nat)
    requires m <= |keys|
    ensures SortedStable(keys, OrderOf(keys, m))
  {
    if m > 0 {
      var o := OrderOf(keys, m - 1);
      OrderOfSorted(keys, m - 1);
      OrderOfBelow(keys, m - 1);
      InsertSorted(keys, o, m - 1);
    }
  }

  /** 0, 1, ..., m - 1. */
  function Range(m: nat): (r: seq<nat>)
    ensures |r| == m && forall i :: 0 <= i < m ==> r[i] == i
  {
    seq(m, i requires 0 <= i < m => i)
  }

  /** A sequence with the multiset of 0 .. n-1 lists each of them once. */
  lemma RangePermutation(o: seq<nat>, n: nat)
    requires multiset(o) == multiset(Range(n))
    ensures IsPermutation(o, n)
  {
    assert |o| == |multiset(o)| == n;
    forall i | 0 <= i < |o| ensures o[i] < n {
      assert o[i] in multiset(Range(n));
    }
    forall i, j | 0 <= i < j < |o| ensures o[i] != o[j] {
      if o[i] == o[j] {
        var v := o[i];
        assert multiset(Range(n))[v] == 1 by {
          RangeOnce(n, v);
        }
        TwiceInMultiset(o, i, j);
      }
    }
  }

  lemma {:induction false} RangeOnce(n: nat, v: nat)
    requires v < n
    ensures multiset(Range(n))[v] == 1
  {
    if n - 1 == v {
      assert Range(n) == Range(n - 1) + [v];
      RangeAbsent(n - 1, v);
    } else {
      assert Range(n) == Range(n - 1) + [n - 1];
      RangeOnce(n - 1, v);
    }
  }

  lemma RangeAbsent(n: nat, v: nat)
    requires v >= n
    ensures multiset(Range(n))[v] == 0
  {
    assert v !in Range(n);
  }

  lemma TwiceInMultiset(o: seq<nat>, i: int, j: int)
    requires 0 <= i < j < |o| && o[i] == o[j]
    ensures multiset(o)[o[i]] >= 2
  {
    assert o == o[..i] + [o[i]] + o[i + 1..j] + [o[j]] + o[j + 1..];
  }

  /** The sort lists every position once, in ascending key order, equal
      keys in their original order. */
  lemma SortOrderCorrect(keys: seq<int>)
    ensures IsPermutation(SortOrder(keys), |keys|)
    ensures SortedStable(keys, SortOrder(keys))
  {
    OrderOfSorted(keys, |keys|);
    OrderOfMultiset(keys, |keys|);
    RangePermutation(SortOrder(keys), |keys|);
  }

  /** With `reverse`, keys read along the order never go up, and equal keys
      still keep their original order. */
  lemma SortOrderByCorrect(keys: seq<int>, reverse: bool)
    ensures IsPermutation(SortOrderBy(keys, reverse), |keys|)
    ensures var o := SortOrderBy(keys, reverse);
      forall i, j :: 0 <= i < j < |o| ==>
        (if reverse then keys[o[i]] >= keys[o[j]] else keys[o[i]] <= keys[o[j]]) &&
        (keys[o[i]] == keys[o[j]] ==> o[i] < o[j])
  {
    if reverse {
      SortOrderCorrect(Negated(keys));
    } else {
      SortOrderCorrect(keys);
    }
  }
}
