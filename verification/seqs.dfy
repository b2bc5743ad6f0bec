/** Generic sequence helpers shared by the statistics engine: the optional
    value, left-folded sums, minimum and maximum of a list, Python's stable
    `sorted`, the `Counter` with insertion order, and the "first n of a stable
    sort" used by `sorted(...)[:n]` and `Counter.most_common(n)`. */
module Seqs {

  datatype Option<+T> = None | Some(value: T)

  predicate NoDuplicates<T(==)>(s: seq<T>) {
    forall i, j :: 0 <= i < j < |s| ==> s[i] != s[j]
  }

  /** The position of the first x in s, or |s| when x does not occur. */
  function FirstPos<T(==)>(s: seq<T>, x: T): (p: nat)
    ensures p <= |s| && (p < |s| <==> x in s)
    ensures p < |s| ==> s[p] == x
    ensures x !in s[..p]
  {
    if s == [] || s[0] == x then 0
    else
      var p := 1 + FirstPos(s[1..], x);
      assert s[..p] == [s[0]] + s[1..][..p - 1];
      p
  }

  /** Text appended after the first occurrence of x does not move it. */
  lemma FirstPosAppend<T>(a: seq<T>, b: seq<T>, x: T)
    requires x in a
    ensures FirstPos(a + b, x) == FirstPos(a, x)
  {
    var p := FirstPos(a, x);
    assert (a + b)[..p] == a[..p];
    FirstPosUnique(a + b, x, p);
  }

  /** A position holding x with no x before it is the first position of x. */
  lemma {:induction false} FirstPosUnique<T>(s: seq<T>, x: T, p: nat)
    requires p < |s| && s[p] == x && x !in s[..p]
    ensures FirstPos(s, x) == p
    decreases p
  {
    if s[0] != x {
      assert s[..p][0] == s[0] && s[1..][..p - 1] == s[..p][1..];
      FirstPosUnique(s[1..], x, p - 1);
    }
  }

  /** `s[0] if s else None`. */
  function Head<T>(s: seq<T>): Option<T> {
    if s == [] then None else Some(s[0])
  }

  /** Strictly increasing: sorted, each value once. */
  ghost predicate Increasing(s: seq<int>) {
    forall i, j :: 0 <= i < j < |s| ==> s[i] < s[j]
  }

  // ---------------------------------------------------------------------------
  // Sums

  /** The sum of f over s, folded from the left (the order the source's loops run in). */
  function Sum<T>(s: seq<T>, f: T -> nat): nat
  {
    if s == [] then 0 else Sum(s[..|s| - 1], f) + f(s[|s| - 1])
  }

  lemma {:induction false} SumConcat<T>(a: seq<T>, b: seq<T>, f: T -> nat)
    ensures Sum(a + b, f) == Sum(a, f) + Sum(b, f)
    decreases |b|
  {
    if b == [] {
      assert a + b == a;
    } else {
      assert (a + b)[..|a + b| - 1] == a + b[..|b| - 1];
      SumConcat(a, b[..|b| - 1], f);
    }
  }

  /** A sum does not depend on the order of the summands. */
  lemma {:induction false} SumPermutation<T>(a: seq<T>, b: seq<T>, f: T -> nat)
    requires multiset(a) == multiset(b)
    ensures Sum(a, f) == Sum(b, f)
    decreases |a|
  {
    if a == [] {
      assert |b| == |multiset(b)| == 0;
    } else {
      var x := a[|a| - 1];
      var front := a[..|a| - 1];
      assert a == front + [x];
      assert x in multiset(b);
      var i :| 0 <= i < |b| && b[i] == x;
      var rest := b[..i] + b[i + 1..];
      SumRemove(b, i, f);
      assert multiset(a) == multiset(front) + multiset{x};
      Cancel(multiset(front), multiset(rest), x);
      SumPermutation(front, rest, f);
      SumConcat(front, [x], f);
      assert Sum([x], f) == f(x) by { assert [x][..0] == []; }
    }
  }

  /** Taking element i out of b takes it out of the multiset and its summand
      out of the sum. */
  lemma SumRemove<T>(b: seq<T>, i: nat, f: T -> nat)
    requires i < |b|
    ensures multiset(b) == multiset(b[..i] + b[i + 1..]) + multiset{b[i]}
    ensures Sum(b, f) == Sum(b[..i] + b[i + 1..], f) + f(b[i])
  {
    Around(b, i);
    assert multiset(b) == multiset(b[..i]) + multiset{b[i]} + multiset(b[i + 1..]);
    assert multiset(b[..i] + b[i + 1..]) == multiset(b[..i]) + multiset(b[i + 1..]);
    SumSplit(b[..i], b[i], b[i + 1..], f);
  }

  lemma Cancel<T>(p: multiset<T>, q: multiset<T>, x: T)
    requires p + multiset{x} == q + multiset{x}
    ensures p == q
  {
    forall y ensures p[y] == q[y] {
      assert (p + multiset{x})[y] == (q + multiset{x})[y];
    }
  }

  lemma Around<T>(b: seq<T>, i: nat)
    requires i < |b|
    ensures b == b[..i] + [b[i]] + b[i + 1..]
  {
  }

  lemma SumSplit<T>(left: seq<T>, x: T, right: seq<T>, f: T -> nat)
    ensures Sum(left + [x] + right, f) == Sum(left + right, f) + f(x)
  {
    SumConcat(left + [x], right, f);
    SumConcat(left, [x], f);
    SumConcat(left, right, f);
    assert Sum([x], f) == f(x) by { assert [x][..0] == []; }
  }

  /** Sums of two functions that agree on every element are equal. */
  lemma {:induction false} SumSame<T>(s: seq<T>, f: T -> nat, g: T -> nat)
    requires forall x :: x in s ==> f(x) == g(x)
    ensures Sum(s, f) == Sum(s, g)
    decreases |s|
  {
    if s != [] {
      SumSame(s[..|s| - 1], f, g);
    }
  }

  /** Raising one summand of a list without duplicates by one raises the sum by one. */
  lemma {:induction false} SumBump<T>(s: seq<T>, f: T -> nat, g: T -> nat, k: T)
    requires NoDuplicates(s) && k in s
    requires g(k) == f(k) + 1 && forall x :: x != k ==> f(x) == g(x)
    ensures Sum(s, g) == Sum(s, f) + 1
    decreases |s|
  {
    var front, last := s[..|s| - 1], s[|s| - 1];
    if last == k {
      assert k !in front;
      SumSame(front, f, g);
    } else {
      assert k in front;
      SumBump(front, f, g, k);
    }
  }

  // ---------------------------------------------------------------------------
  // min / max of a non-empty list

  function MinOf(s: seq<int>): (r: int)
    requires s != []
    ensures r in s
    ensures forall x :: x in s ==> r <= x
  {
    if |s| == 1 then s[0]
    else
      var m := MinOf(s[1..]);
      assert forall x :: x in s ==> x == s[0] || x in s[1..];
      if s[0] <= m then s[0] else m
  }

  function MaxOf(s: seq<int>): (r: int)
    requires s != []
    ensures r in s
    ensures forall x :: x in s ==> x <= r
  {
    if |s| == 1 then s[0]
    else
      var m := MaxOf(s[1..]);
      assert forall x :: x in s ==> x == s[0] || x in s[1..];
      if s[0] >= m then s[0] else m
  }

  // ---------------------------------------------------------------------------
  // Stable sort

  /** Elements are in non-decreasing key order. */
  ghost predicate SortedBy<T>(s: seq<T>, key: T -> int) {
    forall i, j :: 0 <= i < j < |s| ==> key(s[i]) <= key(s[j])
  }

  lemma SortedPrefix<T>(s: seq<T>, key: T -> int, n: nat)
    requires SortedBy(s, key) && n <= |s|
    ensures SortedBy(s[..n], key)
    ensures forall i :: 0 <= i < n ==> key(s[i]) <= key(s[|s| - 1])
  {
    forall i, j | 0 <= i < j < n ensures key(s[..n][i]) <= key(s[..n][j]) {
      assert s[..n][i] == s[i] && s[..n][j] == s[j];
    }
  }

  /** The elements of s whose key is v, in their order in s. Two sequences
      with the same `Only` for every v order equal-keyed elements alike. */
  function Only<T>(s: seq<T>, key: T -> int, v: int): seq<T>
  {
    if s == [] then []
    else (if key(s[0]) == v then [s[0]] else []) + Only(s[1..], key, v)
  }

  /** Inserts x in front of the first element whose key is not smaller. */
  function Insert<T>(x: T, s: seq<T>, key: T -> int): (r: seq<T>)
    ensures multiset(r) == multiset{x} + multiset(s)
    ensures |r| == |s| + 1
    ensures forall v :: Only(r, key, v) == (if key(x) == v then [x] else []) + Only(s, key, v)
  {
    if s == [] || key(x) <= key(s[0]) then [x] + s
    else
      var r := [s[0]] + Insert(x, s[1..], key);
      assert r[1..] == Insert(x, s[1..], key);
      assert s == [s[0]] + s[1..];
      r
  }

  lemma {:induction false} InsertSorted<T>(x: T, s: seq<T>, key: T -> int)
    requires SortedBy(s, key)
    ensures SortedBy(Insert(x, s, key), key)
    decreases |s|
  {
    if s == [] || key(x) <= key(s[0]) {
    } else {
      var tail := Insert(x, s[1..], key);
      InsertSorted(x, s[1..], key);
      InsertBounded(x, s, key);
      var r := [s[0]] + tail;
      forall i, j | 0 <= i < j < |r| ensures key(r[i]) <= key(r[j]) {
        if i == 0 { assert r[j] in tail; }
        else { assert r[i] == tail[i - 1] && r[j] == tail[j - 1]; }
      }
    }
  }

  lemma InsertBounded<T>(x: T, s: seq<T>, key: T -> int)
    requires SortedBy(s, key) && s != [] && key(s[0]) <= key(x)
    ensures forall e :: e in Insert(x, s[1..], key) ==> key(s[0]) <= key(e)
  {
    var tail := Insert(x, s[1..], key);
    forall e | e in tail ensures key(s[0]) <= key(e) {
      assert e in multiset(tail);
      assert e == x || e in s[1..];
    }
  }

  /** Python's `sorted(s, key=key)`: a stable sort by non-decreasing key. */
  function SortBy<T>(s: seq<T>, key: T -> int): (r: seq<T>)
    ensures multiset(r) == multiset(s)
    ensures |r| == |s|
    ensures forall v :: Only(r, key, v) == Only(s, key, v)
  {
    if s == [] then []
    else
      var r := Insert(s[0], SortBy(s[1..], key), key);
      assert s == [s[0]] + s[1..];
      assert forall v :: Only(s, key, v) == (if key(s[0]) == v then [s[0]] else []) + Only(s[1..], key, v);
      r
  }

  lemma {:induction false} SortBySorted<T>(s: seq<T>, key: T -> int)
    ensures SortedBy(SortBy(s, key), key)
    decreases |s|
  {
    if s != [] {
      SortBySorted(s[1..], key);
      InsertSorted(s[0], SortBy(s[1..], key), key);
    }
  }

  lemma {:induction false} OnlyOfPrefix<T>(s: seq<T>, n: nat, key: T -> int, v: int)
    requires n <= |s|
    ensures Only(s[..n], key, v) <= Only(s, key, v)
    decreases n
  {
    if n > 0 {
      assert s[..n][1..] == s[1..][..n - 1];
      OnlyOfPrefix(s[1..], n - 1, key, v);
    }
  }

  function Min(a: int, b: int): int { if a <= b then a else b }

  /** `sorted(s, key=key)[:n]`: the first n elements of the stable sort. The
      result is ranked, every element left out ranks no better than the last
      one kept, and among equal keys the earlier input element is kept first. */
  function TopBy<T>(s: seq<T>, key: T -> int, n: nat): (r: seq<T>)
    ensures |r| == Min(n, |s|)
    ensures SortedBy(r, key)
    ensures multiset(r) <= multiset(s)
    ensures forall v :: Only(r, key, v) <= Only(s, key, v)
    ensures r != [] ==> forall x :: x in multiset(s) - multiset(r) ==> key(r[|r| - 1]) <= key(x)
    ensures |r| == |s| ==> multiset(r) == multiset(s)
  {
    var t := SortBy(s, key);
    SortBySorted(s, key);
    var r := t[..Min(n, |s|)];
    TopOfSorted(s, t, key, n, r);
    r
  }

  /** The facts `TopBy` promises, for a prefix r of a sorted permutation t of s
      that agrees with s on the order of equal keys. */
  lemma TopOfSorted<T>(s: seq<T>, t: seq<T>, key: T -> int, n: nat, r: seq<T>)
    requires SortedBy(t, key) && multiset(t) == multiset(s) && |t| == |s|
    requires forall v :: Only(t, key, v) == Only(s, key, v)
    requires r == t[..Min(n, |s|)]
    ensures |r| == Min(n, |s|)
    ensures SortedBy(r, key)
    ensures multiset(r) <= multiset(s)
    ensures forall v :: Only(r, key, v) <= Only(s, key, v)
    ensures r != [] ==> forall x :: x in multiset(s) - multiset(r) ==> key(r[|r| - 1]) <= key(x)
    ensures |r| == |s| ==> multiset(r) == multiset(s)
  {
    var m := Min(n, |s|);
    assert m == |t| ==> r == t;
    forall v ensures Only(r, key, v) <= Only(s, key, v) {
      OnlyOfPrefix(t, m, key, v);
    }
    PrefixOfSorted(t, key, m);
  }

  lemma {:induction false} PrefixOfSorted<T>(t: seq<T>, key: T -> int, m: nat)
    requires m <= |t| && SortedBy(t, key)
    ensures SortedBy(t[..m], key)
    ensures multiset(t[..m]) <= multiset(t)
    ensures m > 0 ==> forall x :: x in multiset(t) - multiset(t[..m]) ==> key(t[m - 1]) <= key(x)
  {
    var head, rest := t[..m], t[m..];
    assert t == head + rest;
    assert multiset(t) == multiset(head) + multiset(rest);
    assert multiset(t) - multiset(head) == multiset(rest);
    forall x | x in multiset(rest) && m > 0 ensures key(t[m - 1]) <= key(x) {
      var j :| 0 <= j < |rest| && rest[j] == x;
      assert t[m + j] == x;
    }
  }

  /** The first element of `Only(s, key, v)` is the first element of s whose key is v. */
  lemma {:induction false} OnlyFirst<T>(s: seq<T>, key: T -> int, v: int)
    requires Only(s, key, v) != []
    ensures exists i :: 0 <= i < |s| && s[i] == Only(s, key, v)[0] && key(s[i]) == v
                        && forall j :: 0 <= j < i ==> key(s[j]) != v
    decreases |s|
  {
    if key(s[0]) != v {
      OnlyFirst(s[1..], key, v);
      var i :| 0 <= i < |s[1..]| && s[1..][i] == Only(s[1..], key, v)[0] && key(s[1..][i]) == v
               && forall j :: 0 <= j < i ==> key(s[1..][j]) != v;
      assert s[i + 1] == s[1..][i];
      forall j | 0 <= j < i + 1 ensures key(s[j]) != v {
        if j > 0 { assert s[j] == s[1..][j - 1]; }
      }
    }
  }

  /** The head of `sorted(s, key=key)[:n]` ranks best of all of s, and it is
      the first element of s with that rank. */
  lemma {:induction false} OnlyConcat<T>(a: seq<T>, b: seq<T>, key: T -> int, v: int)
    ensures Only(a + b, key, v) == Only(a, key, v) + Only(b, key, v)
    decreases |a|
  {
    if a == [] {
      assert a + b == b;
    } else {
      var h := if key(a[0]) == v then [a[0]] else [];
      assert (a + b)[0] == a[0] && (a + b)[1..] == a[1..] + b;
      OnlyConcat(a[1..], b, key, v);
      calc {
        Only(a + b, key, v);
        h + Only(a[1..] + b, key, v);
        h + (Only(a[1..], key, v) + Only(b, key, v));
        (h + Only(a[1..], key, v)) + Only(b, key, v);
        Only(a, key, v) + Only(b, key, v);
      }
    }
  }

  /** Two elements of r with the same key keep their order in `Only`. */
  lemma OnlyKeepsOrder<T>(r: seq<T>, key: T -> int, i: nat, j: nat) returns (p: nat, q: nat)
    requires i < j < |r| && key(r[i]) == key(r[j])
    ensures p < q < |Only(r, key, key(r[i]))|
    ensures Only(r, key, key(r[i]))[p] == r[i] && Only(r, key, key(r[i]))[q] == r[j]
  {
    var v := key(r[i]);
    var tail := [r[j]] + r[j + 1..];
    var mid := r[i + 1..j] + tail;
    assert r == r[..i] + ([r[i]] + mid);
    OnlyConcat(r[..i], [r[i]] + mid, key, v);
    OnlyConcat([r[i]], mid, key, v);
    OnlyConcat(r[i + 1..j], tail, key, v);
    OnlyConcat([r[j]], r[j + 1..], key, v);
    assert Only([r[i]], key, v) == [r[i]] && Only([r[j]], key, v) == [r[j]];
    p := |Only(r[..i], key, v)|;
    q := p + 1 + |Only(r[i + 1..j], key, v)|;
  }

  /** Element p of `Only(s, key, v)` stands in s at a position a before
      which s holds exactly p elements with key v. */
  lemma {:induction false} OnlyOrigin<T>(s: seq<T>, key: T -> int, v: int, p: nat) returns (a: nat)
    requires p < |Only(s, key, v)|
    ensures a < |s| && s[a] == Only(s, key, v)[p] && |Only(s[..a], key, v)| == p
    decreases |s|
  {
    if key(s[0]) == v && p == 0 {
      a := 0;
      assert s[..0] == [];
    } else {
      var p' := if key(s[0]) == v then p - 1 else p;
      var a' := OnlyOrigin(s[1..], key, v, p');
      a := a' + 1;
      assert s[..a][1..] == s[1..][..a'];
    }
  }

  /** `TopBy` keeps elements with equal keys in their input order: two of
      them in the result stand in s in the same order. */
  lemma TopByStable<T>(s: seq<T>, key: T -> int, n: nat, i: nat, j: nat)
    requires i < j < |TopBy(s, key, n)| && key(TopBy(s, key, n)[i]) == key(TopBy(s, key, n)[j])
    ensures exists a, b :: 0 <= a < b < |s| && s[a] == TopBy(s, key, n)[i] && s[b] == TopBy(s, key, n)[j]
  {
    StableOrder(s, TopBy(s, key, n), key, i, j);
  }

  /** When r picks a prefix of s's elements with some key, two elements of r
      with that key stand in s in the same order. */
  lemma StableOrder<T>(s: seq<T>, r: seq<T>, key: T -> int, i: nat, j: nat)
    requires i < j < |r| && key(r[i]) == key(r[j])
    requires Only(r, key, key(r[i])) <= Only(s, key, key(r[i]))
    ensures exists a, b :: 0 <= a < b < |s| && s[a] == r[i] && s[b] == r[j]
  {
    var v := key(r[i]);
    var p, q := OnlyKeepsOrder(r, key, i, j);
    var o := Only(s, key, v);
    assert Only(r, key, v) == o[..|Only(r, key, v)|];
    assert o[p] == r[i] && o[q] == r[j];
    var a := OnlyOrigin(s, key, v, p);
    var b := OnlyOrigin(s, key, v, q);
    OnlyGrows(s, key, v, b, a);
    assert 0 <= a < b < |s| && s[a] == r[i] && s[b] == r[j];
  }

  /** `TopBy` keeps, of the elements with one key, those that come first:
      an element of s left out of the result stands after every kept
      element with the same key. */
  lemma TopByKeepsEarlier<T>(s: seq<T>, key: T -> int, n: nat, i: nat, b: nat)
    requires i < |TopBy(s, key, n)| && b < |s| && s[b] !in TopBy(s, key, n)
    requires key(s[b]) == key(TopBy(s, key, n)[i])
    ensures exists a :: 0 <= a < b && s[a] == TopBy(s, key, n)[i]
  {
    var a := KeptBefore(s, TopBy(s, key, n), key, i, b);
  }

  /** When r picks a prefix of s's elements with some key, an element of s
      with that key missing from r stands after every such element of r. */
  lemma KeptBefore<T>(s: seq<T>, r: seq<T>, key: T -> int, i: nat, b: nat) returns (a: nat)
    requires i < |r| && b < |s| && s[b] !in r && key(s[b]) == key(r[i])
    requires Only(r, key, key(r[i])) <= Only(s, key, key(r[i]))
    ensures a < b && s[a] == r[i]
  {
    var v := key(r[i]);
    var o := Only(s, key, v);
    var kept := Only(r, key, v);
    OnlyAt(r, key, i);
    OnlyAt(s, key, b);
    var p := |Only(r[..i], key, v)|;
    var q := |Only(s[..b], key, v)|;
    if q < |kept| {
      var c := OnlyOrigin(r, key, v, q);
      assert false;
    }
    a := OnlyOrigin(s, key, v, p);
    OnlyGrows(s, key, v, b, a);
  }

  /** Element i of s is element |Only(s[..i], …)| of `Only` for its key. */
  lemma OnlyAt<T>(s: seq<T>, key: T -> int, i: nat)
    requires i < |s|
    ensures var v := key(s[i]); var p := |Only(s[..i], key, v)|;
      p < |Only(s, key, v)| && Only(s, key, v)[p] == s[i]
  {
    var v := key(s[i]);
    assert s == s[..i] + ([s[i]] + s[i + 1..]);
    OnlyConcat(s[..i], [s[i]] + s[i + 1..], key, v);
    OnlyConcat([s[i]], s[i + 1..], key, v);
    assert Only([s[i]], key, v) == [s[i]];
  }

  /** A longer prefix has at least as many elements with key v. */
  lemma OnlyGrows<T>(s: seq<T>, key: T -> int, v: int, b: nat, a: nat)
    requires a <= |s| && b <= |s|
    ensures b <= a ==> |Only(s[..b], key, v)| <= |Only(s[..a], key, v)|
  {
    if b <= a {
      assert s[..a] == s[..b] + s[b..a];
      OnlyConcat(s[..b], s[b..a], key, v);
    }
  }

  lemma TopFirst<T>(s: seq<T>, key: T -> int, n: nat)
    requires n > 0 && s != []
    ensures var r := TopBy(s, key, n);
      && r != []
      && (forall x :: x in s ==> key(r[0]) <= key(x))
      && exists i :: 0 <= i < |s| && s[i] == r[0] && forall j :: 0 <= j < i ==> key(r[0]) < key(s[j])
  {
    RankedHead(s, TopBy(s, key, n), key);
  }

  lemma RankedHead<T>(s: seq<T>, r: seq<T>, key: T -> int)
    requires r != [] && SortedBy(r, key) && multiset(r) <= multiset(s)
    requires forall v :: Only(r, key, v) <= Only(s, key, v)
    requires forall x :: x in multiset(s) - multiset(r) ==> key(r[|r| - 1]) <= key(x)
    ensures forall x :: x in s ==> key(r[0]) <= key(x)
    ensures exists i :: 0 <= i < |s| && s[i] == r[0] && forall j :: 0 <= j < i ==> key(r[0]) < key(s[j])
  {
    forall x | x in s ensures key(r[0]) <= key(x) {
      if x in r {
        var j :| 0 <= j < |r| && r[j] == x;
        assert j == 0 || key(r[0]) <= key(r[j]);
      } else {
        assert x in multiset(s) - multiset(r);
        assert |r| == 1 || key(r[0]) <= key(r[|r| - 1]);
      }
    }
    var v := key(r[0]);
    assert Only(r, key, v)[0] == r[0];
    OnlyFirst(s, key, v);
  }

  /** What `sorted(s, key=key)[:n]` keeps: elements of s only, each as often
      as s has it at most, and an element of s left out means the n places
      are all taken by elements that rank no worse. */
  lemma TopEntries<T>(s: seq<T>, key: T -> int, n: nat)
    ensures var r := TopBy(s, key, n);
      && (forall x :: x in r ==> x in s)
      && (NoDuplicates(s) ==> NoDuplicates(r))
      && (forall x :: x in s && x !in r ==> |r| == n && (n > 0 ==> key(r[n - 1]) <= key(x)))
  {
    var r := TopBy(s, key, n);
    RankedRest(s, r, key, n);
  }

  lemma RankedRest<T>(s: seq<T>, r: seq<T>, key: T -> int, n: nat)
    requires |r| == Min(n, |s|) && multiset(r) <= multiset(s)
    requires r != [] ==> forall x :: x in multiset(s) - multiset(r) ==> key(r[|r| - 1]) <= key(x)
    requires |r| == |s| ==> multiset(r) == multiset(s)
    ensures forall x :: x in r ==> x in s
    ensures NoDuplicates(s) ==> NoDuplicates(r)
    ensures forall x :: x in s && x !in r ==> |r| == n && (n > 0 ==> key(r[n - 1]) <= key(x))
  {
    forall x | x in r ensures x in s {
      assert x in multiset(r);
    }
    if NoDuplicates(s) {
      SubMultisetNoDuplicates(r, s);
    }
    forall x | x in s && x !in r ensures |r| == n && (n > 0 ==> key(r[n - 1]) <= key(x)) {
      assert x in multiset(s) - multiset(r);
    }
  }

  lemma {:induction false} NoDuplicatesCounts<T>(s: seq<T>)
    requires NoDuplicates(s)
    ensures forall x :: multiset(s)[x] <= 1
    decreases |s|
  {
    if s != [] {
      var front, last := s[..|s| - 1], s[|s| - 1];
      assert s == front + [last];
      assert NoDuplicates(front);
      assert last !in front;
      NoDuplicatesCounts(front);
    }
  }

  lemma RepeatCounts<T>(r: seq<T>, i: int, j: int)
    requires 0 <= i < j < |r|
    ensures multiset(r)[r[j]] >= if r[i] == r[j] then 2 else 1
  {
    assert r == r[..j] + [r[j]] + r[j + 1..];
    assert r[i] in r[..j];
  }

  /** A sub-multiset of a list without duplicates has no duplicates either. */
  lemma SubMultisetNoDuplicates<T>(r: seq<T>, s: seq<T>)
    requires multiset(r) <= multiset(s) && NoDuplicates(s)
    ensures NoDuplicates(r)
  {
    NoDuplicatesCounts(s);
    forall i, j | 0 <= i < j < |r| ensures r[i] != r[j] {
      RepeatCounts(r, i, j);
    }
  }

  // ---------------------------------------------------------------------------
  // Counter with insertion order

  /** Python's `collections.Counter`: a count per key, with keys kept in the
      order they were first counted (dict insertion order). */
  datatype Counter<K(==,!new)> = Counter(order: seq<K>, counts: map<K, nat>) {

    /** The bookkeeping a Counter keeps: every key once in order, and only
        keys with a positive count are present. */
    ghost predicate Valid() {
      && NoDuplicates(order)
      && (forall k :: k in counts <==> k in order)
      && (forall k :: k in counts ==> counts[k] > 0)
    }

    /** `counter[k]`: zero for a key never counted. */
    function Get(k: K): nat {
      if k in counts then counts[k] else 0
    }

    /** `counter[k] += 1`. */
    function Add(k: K): (r: Counter<K>)
      ensures Valid() ==> r.Valid()
      ensures forall j :: r.Get(j) == Get(j) + (if j == k then 1 else 0)
      ensures r.order == if k in counts then order else order + [k]
    {
      if k in counts then Counter(order, counts[k := counts[k] + 1])
      else Counter(order + [k], counts[k := 1])
    }

    /** `max(counter.items(), key=count)`: the first key, in insertion order,
        whose count is largest (Python's `max` keeps the first maximum). */
    function MostCommonKey(): (r: Option<K>)
      requires Valid()
      ensures r.None? <==> order == []
      ensures r.Some? ==> exists i :: 0 <= i < |order| && order[i] == r.value
                                      && (forall j :: 0 <= j < i ==> Get(order[j]) < Get(r.value))
      ensures r.Some? ==> forall k :: k in order ==> Get(k) <= Get(r.value)
    {
      FirstMax(order)
    }

    function FirstMax(keys: seq<K>): (r: Option<K>)
      ensures r.None? <==> keys == []
      ensures r.Some? ==> exists i :: 0 <= i < |keys| && keys[i] == r.value
                                      && (forall j :: 0 <= j < i ==> Get(keys[j]) < Get(r.value))
      ensures r.Some? ==> forall k :: k in keys ==> Get(k) <= Get(r.value)
    {
      if keys == [] then None
      else
        var best := FirstMax(keys[..|keys| - 1]);
        var last := keys[|keys| - 1];
        var r := if best.None? || Get(last) > Get(best.value) then Some(last) else best;
        FirstMaxStep(keys, best, r);
        r
    }

    /** The step of `FirstMax`: the last key replaces the best of the others
        only when its count is strictly larger. */
    lemma FirstMaxStep(keys: seq<K>, best: Option<K>, r: Option<K>)
      requires keys != []
      requires var front := keys[..|keys| - 1];
        && (best.None? <==> front == [])
        && (best.Some? ==> exists i :: 0 <= i < |front| && front[i] == best.value
                                      && (forall j :: 0 <= j < i ==> Get(front[j]) < Get(best.value)))
        && (best.Some? ==> forall k :: k in front ==> Get(k) <= Get(best.value))
      requires r == if best.None? || Get(keys[|keys| - 1]) > Get(best.value) then Some(keys[|keys| - 1]) else best
      ensures r.Some?
      ensures exists i :: 0 <= i < |keys| && keys[i] == r.value
                          && (forall j :: 0 <= j < i ==> Get(keys[j]) < Get(r.value))
      ensures forall k :: k in keys ==> Get(k) <= Get(r.value)
    {
      var front, last := keys[..|keys| - 1], keys[|keys| - 1];
      assert forall k :: k in keys ==> k in front || k == last;
      if r == Some(last) {
        assert forall j :: 0 <= j < |keys| - 1 ==> keys[j] in front;
      } else {
        var i :| 0 <= i < |front| && front[i] == best.value
                 && (forall j :: 0 <= j < i ==> Get(front[j]) < Get(best.value));
        assert keys[i] == r.value;
      }
    }
  }

  function EmptyCounter<K(==,!new)>(): (c: Counter<K>)
    ensures c.Valid() && forall k :: c.Get(k) == 0
  {
    Counter([], map[])
  }
}
