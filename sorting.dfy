/** Python's `sorted(..., key=..., reverse=...)` on sequences of indices: a stable sort by a real key,
    ascending or descending. The result of a stable sort is unique, so it is modelled by an insertion
    sort; what callers rely on is stated as lemmas: the result is a permutation of the input, it is
    ordered by the key, and elements with equal keys keep their input order. */
module Sorting {

  /** 0, 1, ..., n - 1 */
  function Iota(n: nat): (s: seq<nat>)
    ensures |s| == n && forall k :: 0 <= k < n ==> s[k] == k
  {
    seq(n, k requires 0 <= k < n => k)
  }

  /** Whether key `a` may stand before key `b`: ascending order unless `descending`. */
  predicate InOrder(a: real, b: real, descending: bool)
  {
    if descending then a >= b else a <= b
  }

  predicate Keyed(s: seq<nat>, key: seq<real>)
  {
    forall k :: 0 <= k < |s| ==> s[k] < |key|
  }

  predicate Sorted(s: seq<nat>, key: seq<real>, descending: bool)
    requires Keyed(s, key)
  {
    forall i, j :: 0 <= i < j < |s| ==> InOrder(key[s[i]], key[s[j]], descending)
  }

  predicate Distinct(s: seq<nat>)
  {
    forall i, j :: 0 <= i < j < |s| ==> s[i] != s[j]
  }

  /** `a` occurs somewhere before `b` in `s`. */
  predicate Before(s: seq<nat>, a: nat, b: nat)
  {
    exists i, j :: 0 <= i < j < |s| && s[i] == a && s[j] == b
  }

  /** Where a stable insertion puts `x` into `t`: in front of the first element whose key `x`'s key
      may precede, i.e. behind every element whose key strictly precedes it. */
  function InsertionPoint(x: nat, t: seq<nat>, key: seq<real>, descending: bool): (p: nat)
    requires x < |key| && Keyed(t, key)
    ensures p <= |t|
    ensures forall i :: 0 <= i < p ==> !InOrder(key[x], key[t[i]], descending)
    ensures p < |t| ==> InOrder(key[x], key[t[p]], descending)
  {
    if t == [] || InOrder(key[x], key[t[0]], descending) then 0
    else 1 + InsertionPoint(x, t[1..], key, descending)
  }

  function Insert(x: nat, t: seq<nat>, key: seq<real>, descending: bool): (r: seq<nat>)
    requires x < |key| && Keyed(t, key)
    ensures Keyed(r, key)
    ensures multiset(r) == multiset(t) + multiset{x}
  {
    var p := InsertionPoint(x, t, key, descending);
    Splice(t, p, x, key);
    t[..p] + [x] + t[p..]
  }

  /** Putting `x` between the first `p` elements of `t` and the rest adds `x` and nothing else. */
  lemma Splice(t: seq<nat>, p: nat, x: nat, key: seq<real>)
    requires p <= |t| && x < |key| && Keyed(t, key)
    ensures Keyed(t[..p] + [x] + t[p..], key)
    ensures multiset(t[..p] + [x] + t[p..]) == multiset(t) + multiset{x}
  {
    var front, back := t[..p], t[p..];
    assert t == front + back;
    var r := front + [x] + back;
    forall k | 0 <= k < |r|
      ensures r[k] < |key|
    {
      if k > p {
        assert r[k] == back[k - p - 1];
      }
    }
  }

  /** Where each element ends up after an insertion at the insertion point. */
  lemma InsertShape(x: nat, t: seq<nat>, key: seq<real>, descending: bool)
    requires x < |key| && Keyed(t, key)
    ensures var p, r := InsertionPoint(x, t, key, descending), Insert(x, t, key, descending);
      && |r| == |t| + 1 && r[p] == x
      && (forall k :: 0 <= k < p ==> r[k] == t[k])
      && (forall k :: p < k < |r| ==> r[k] == t[k - 1])
  {
    SpliceShape(t, InsertionPoint(x, t, key, descending), x);
  }

  lemma SpliceShape(t: seq<nat>, p: nat, x: nat)
    requires p <= |t|
    ensures var r := t[..p] + [x] + t[p..];
      && |r| == |t| + 1 && r[p] == x
      && (forall k :: 0 <= k < p ==> r[k] == t[k])
      && (forall k :: p < k < |r| ==> r[k] == t[k - 1])
  {
  }

  function SortBy(s: seq<nat>, key: seq<real>, descending: bool): (r: seq<nat>)
    requires Keyed(s, key)
    ensures Keyed(r, key)
    ensures multiset(r) == multiset(s)
  {
    if s == [] then []
    else
      assert s == [s[0]] + s[1..];
      Insert(s[0], SortBy(s[1..], key, descending), key, descending)
  }

  lemma InsertSorted(x: nat, t: seq<nat>, key: seq<real>, descending: bool)
    requires x < |key| && Keyed(t, key) && Sorted(t, key, descending)
    ensures Sorted(Insert(x, t, key, descending), key, descending)
  {
    var p := InsertionPoint(x, t, key, descending);
    var r := Insert(x, t, key, descending);
    InsertShape(x, t, key, descending);
    forall i, j | 0 <= i < j < |r|
      ensures InOrder(key[r[i]], key[r[j]], descending)
    {
      if j < p {
        assert r[i] == t[i] && r[j] == t[j];
      } else if j == p {
        assert r[i] == t[i] && r[j] == x;
      } else if i < p {
        assert r[i] == t[i] && r[j] == t[j - 1];
      } else if i == p {
        assert r[i] == x && r[j] == t[j - 1];
        assert InOrder(key[t[p]], key[t[j - 1]], descending) || p == j - 1;
      } else {
        assert r[i] == t[i - 1] && r[j] == t[j - 1];
      }
    }
  }

  /** The stable sort orders its result by the key. */
  lemma {:induction false} SortBySorted(s: seq<nat>, key: seq<real>, descending: bool)
    requires Keyed(s, key)
    ensures Sorted(SortBy(s, key, descending), key, descending)
  {
    if s != [] {
      SortBySorted(s[1..], key, descending);
      InsertSorted(s[0], SortBy(s[1..], key, descending), key, descending);
    }
  }

  /** Inserting keeps the relative order of the elements already there. */
  lemma InsertKeepsBefore(x: nat, t: seq<nat>, key: seq<real>, descending: bool, a: nat, b: nat)
    requires x < |key| && Keyed(t, key)
    requires Before(t, a, b)
    ensures Before(Insert(x, t, key, descending), a, b)
  {
    var p := InsertionPoint(x, t, key, descending);
    var r := Insert(x, t, key, descending);
    var i, j :| 0 <= i < j < |t| && t[i] == a && t[j] == b;
    var i' := if i < p then i else i + 1;
    var j' := if j < p then j else j + 1;
    assert r[i'] == a && r[j'] == b;
  }

  /** Inserting puts `x` in front of every element whose key it may precede. */
  lemma InsertGoesFirst(x: nat, t: seq<nat>, key: seq<real>, descending: bool, b: nat)
    requires x < |key| && Keyed(t, key)
    requires b in t && b < |key| && InOrder(key[x], key[b], descending)
    ensures Before(Insert(x, t, key, descending), x, b)
  {
    var p := InsertionPoint(x, t, key, descending);
    var r := Insert(x, t, key, descending);
    var j :| 0 <= j < |t| && t[j] == b;
    assert p <= j;
    assert r[p] == x && r[j + 1] == b;
  }

  /** The sort is stable: elements with equal keys keep the order they had in the input. */
  lemma {:induction false} SortByStable(s: seq<nat>, key: seq<real>, descending: bool, a: nat, b: nat)
    requires Keyed(s, key) && a < |key| && b < |key|
    ensures Before(s, a, b) && key[a] == key[b] ==> Before(SortBy(s, key, descending), a, b)
  {
    if Before(s, a, b) && key[a] == key[b] {
      var i, j :| 0 <= i < j < |s| && s[i] == a && s[j] == b;
      var rest := SortBy(s[1..], key, descending);
      if i == 0 {
        assert b in s[1..] by { assert s[1..][j - 1] == b; }
        assert b in multiset(rest);
        InsertGoesFirst(a, rest, key, descending, b);
      } else {
        assert s[1..][i - 1] == a && s[1..][j - 1] == b;
        SortByStable(s[1..], key, descending, a, b);
        InsertKeepsBefore(s[0], rest, key, descending, a, b);
      }
    }
  }

  /** Two different elements of a sequence stand one before the other. */
  lemma BeforeTotal(s: seq<nat>, a: nat, b: nat)
    requires a in s && b in s && a != b
    ensures Before(s, a, b) || Before(s, b, a)
  {
    var i :| 0 <= i < |s| && s[i] == a;
    var j :| 0 <= j < |s| && s[j] == b;
    if i < j { assert Before(s, a, b); } else { assert Before(s, b, a); }
  }

  /** In a sequence without repetitions no two elements stand each before the other. */
  lemma BeforeAsymmetric(s: seq<nat>, a: nat, b: nat)
    requires Distinct(s) && Before(s, a, b)
    ensures !Before(s, b, a)
  {
    var i, j :| 0 <= i < j < |s| && s[i] == a && s[j] == b;
    forall i', j' | 0 <= i' < j' < |s| && s[i'] == b
      ensures s[j'] != a
    {
      assert i' == j;
    }
  }

  lemma InsertDistinct(x: nat, t: seq<nat>, key: seq<real>, descending: bool)
    requires x < |key| && Keyed(t, key) && Distinct(t) && x !in t
    ensures Distinct(Insert(x, t, key, descending))
  {
    var p := InsertionPoint(x, t, key, descending);
    var r := Insert(x, t, key, descending);
    InsertShape(x, t, key, descending);
    forall i, j | 0 <= i < j < |r|
      ensures r[i] != r[j]
    {
      if j < p {
        assert r[i] == t[i] && r[j] == t[j];
      } else if j == p {
        assert r[i] == t[i] && r[j] == x;
      } else if i < p {
        assert r[i] == t[i] && r[j] == t[j - 1];
      } else if i == p {
        assert r[i] == x && r[j] == t[j - 1];
      } else {
        assert r[i] == t[i - 1] && r[j] == t[j - 1];
      }
    }
  }

  /** Sorting a sequence without repetitions gives a sequence without repetitions. */
  lemma {:induction false} SortByDistinct(s: seq<nat>, key: seq<real>, descending: bool)
    requires Keyed(s, key) && Distinct(s)
    ensures Distinct(SortBy(s, key, descending))
  {
    if s != [] {
      var rest := SortBy(s[1..], key, descending);
      SortByDistinct(s[1..], key, descending);
      assert s[0] !in s[1..] by {
        forall m | 0 <= m < |s[1..]| ensures s[1..][m] != s[0] {
          assert s[1..][m] == s[m + 1];
        }
      }
      assert s[0] !in multiset(rest);
      InsertDistinct(s[0], rest, key, descending);
    }
  }

  /** Two elements of a sorted sequence of different indices: the one in front has the key that
      may precede, and with equal keys it is the one the input had in front. */
  lemma SortByOrdersPairs(s: seq<nat>, key: seq<real>, descending: bool, p: nat, q: nat)
    requires Keyed(s, key) && Distinct(s)
    requires p < q < |SortBy(s, key, descending)|
    ensures var r := SortBy(s, key, descending);
      InOrder(key[r[p]], key[r[q]], descending) &&
      (key[r[p]] == key[r[q]] ==> Before(s, r[p], r[q]))
  {
    var r := SortBy(s, key, descending);
    SortBySorted(s, key, descending);
    SortByDistinct(s, key, descending);
    var a, b := r[p], r[q];
    assert Before(r, a, b);
    BeforeAsymmetric(r, a, b);
    assert a in multiset(s) && b in multiset(s);
    BeforeTotal(s, a, b);
    SortByStable(s, key, descending, b, a);
  }
}
