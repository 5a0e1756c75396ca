/**
 * Python's orderings as the daemon uses them: `sorted()` on a set of
 * strings (code-point order), `sorted(..., reverse=True)` on line numbers,
 * and the stable `list.sort(key=...)` on integer keys.
 */
module Sorting {

  /** Python's `<` on `str`: code-point lexicographic order. */
  predicate StrLt(a: string, b: string) {
    if a == [] then b != []
    else if b == [] then false
    else if a[0] != b[0] then a[0] < b[0]
    else StrLt(a[1..], b[1..])
  }

  lemma {:induction false} StrLtIrreflexive(a: string)
    ensures !StrLt(a, a)
  {
    if a != [] { StrLtIrreflexive(a[1..]); }
  }

  lemma {:induction false} StrLtTotal(a: string, b: string)
    requires a != b
    ensures StrLt(a, b) || StrLt(b, a)
  {
    if a != [] && b != [] && a[0] == b[0] {
      assert a[1..] != b[1..] by { assert a == [a[0]] + a[1..] && b == [b[0]] + b[1..]; }
      StrLtTotal(a[1..], b[1..]);
    }
  }

  lemma {:induction false} StrLtAsymmetric(a: string, b: string)
    requires StrLt(a, b)
    ensures !StrLt(b, a)
  {
    if a != [] && b != [] && a[0] == b[0] { StrLtAsymmetric(a[1..], b[1..]); }
  }

  lemma {:induction false} StrLtTransitive(a: string, b: string, c: string)
    requires StrLt(a, b) && StrLt(b, c)
    ensures StrLt(a, c)
  {
    if a != [] && b != [] && c != [] && a[0] == b[0] && b[0] == c[0] {
      StrLtTransitive(a[1..], b[1..], c[1..]);
    }
  }

  predicate IsLeast(m: string, s: set<string>) {
    m in s && forall y :: y in s && y != m ==> StrLt(m, y)
  }

  lemma {:induction false} LeastExists(s: set<string>)
    requires s != {}
    ensures exists m :: IsLeast(m, s)
    decreases |s|
  {
    var x :| x in s;
    if !IsLeast(x, s) {
      var y :| y in s && y != x && !StrLt(x, y);
      var rest := s - {x};
      assert y in rest;
      LeastExists(rest);
      var m :| IsLeast(m, rest);
      StrLtTotal(x, y);
      assert StrLt(m, x) by {
        if m != y { StrLtTransitive(m, y, x); }
      }
      assert IsLeast(m, s);
    }
  }

  lemma LeastUnique(s: set<string>)
    ensures forall m1, m2 :: IsLeast(m1, s) && IsLeast(m2, s) ==> m1 == m2
  {
    forall m1, m2 | IsLeast(m1, s) && IsLeast(m2, s) ensures m1 == m2 {
      if m1 != m2 { StrLtAsymmetric(m1, m2); }
    }
  }

  function Least(s: set<string>): (m: string)
    requires s != {}
    ensures IsLeast(m, s)
  {
    LeastExists(s);
    LeastUnique(s);
    var m :| IsLeast(m, s);
    m
  }

  predicate StrictlyIncreasing(r: seq<string>) {
    forall i, j :: 0 <= i < j < |r| ==> StrLt(r[i], r[j])
  }

  /** `sorted(s)` for a set of strings. */
  function SortedStrings(s: set<string>): (r: seq<string>)
    ensures |r| == |s| && (forall x :: x in r <==> x in s)
    ensures StrictlyIncreasing(r)
    decreases |s|
  {
    if s == {} then []
    else
      var m := Least(s);
      var rest := SortedStrings(s - {m});
      assert forall i :: 0 <= i < |rest| ==> StrLt(m, rest[i]) by {
        forall i | 0 <= i < |rest| ensures StrLt(m, rest[i]) { assert rest[i] in rest; }
      }
      [m] + rest
  }

  /** Each element is at least the next one. */
  predicate Descending(r: seq<int>) {
    forall i :: 0 < i < |r| ==> r[i - 1] >= r[i]
  }

  function InsertDescending(x: int, r: seq<int>): (t: seq<int>)
    requires Descending(r)
    ensures Descending(t) && multiset(t) == multiset(r) + multiset{x}
    ensures t[0] == x || (r != [] && t[0] == r[0])
  {
    if r == [] || x >= r[0] then [x] + r
    else
      assert r == [r[0]] + r[1..];
      [r[0]] + InsertDescending(x, r[1..])
  }

  /** `sorted(keys, reverse=True)` for integers (line numbers). */
  function SortDescending(s: seq<int>): (r: seq<int>)
    ensures Descending(r) && multiset(r) == multiset(s)
  {
    if s == [] then []
    else
      assert s == [s[0]] + s[1..];
      InsertDescending(s[0], SortDescending(s[1..]))
  }

  predicate Ascending(r: seq<int>) {
    forall i :: 0 < i < |r| ==> r[i - 1] <= r[i]
  }

  function InsertAscending(x: int, r: seq<int>): (t: seq<int>)
    requires Ascending(r)
    ensures Ascending(t) && multiset(t) == multiset(r) + multiset{x}
    ensures t[0] == x || (r != [] && t[0] == r[0])
  {
    if r == [] || x <= r[0] then [x] + r
    else
      assert r == [r[0]] + r[1..];
      [r[0]] + InsertAscending(x, r[1..])
  }

  /** `sorted(keys)` for integers (line numbers). */
  function SortAscending(s: seq<int>): (r: seq<int>)
    ensures Ascending(r) && multiset(r) == multiset(s)
  {
    if s == [] then []
    else
      assert s == [s[0]] + s[1..];
      InsertAscending(s[0], SortAscending(s[1..]))
  }

  /**
   * The order a stable sort on `keys` puts positions in: by key, and by
   * original position among equal keys.
   */
  predicate Before(keys: seq<int>, i: nat, j: nat)
    requires i < |keys| && j < |keys|
  {
    keys[i] < keys[j] || (keys[i] == keys[j] && i < j)
  }

  predicate InStableOrder(keys: seq<int>, r: seq<nat>)
  {
    (forall p :: 0 <= p < |r| ==> r[p] < |keys|)
    && forall p, q :: 0 <= p < q < |r| ==> Before(keys, r[p], r[q])
  }

  /** Inserts position `x` into an ordered sequence of positions. */
  function Insert(keys: seq<int>, x: nat, r: seq<nat>): (t: seq<nat>)
    requires x < |keys| && forall p :: 0 <= p < |r| ==> r[p] < |keys|
    ensures forall p :: 0 <= p < |t| ==> t[p] < |keys|
    ensures multiset(t) == multiset(r) + multiset{x}
  {
    if r == [] then [x]
    else if Before(keys, x, r[0]) then [x] + r
    else
      assert r == [r[0]] + r[1..];
      [r[0]] + Insert(keys, x, r[1..])
  }

  /** Inserting a new position keeps the positions in stable order. */
  lemma {:induction false} InsertInOrder(keys: seq<int>, x: nat, r: seq<nat>)
    requires x < |keys| && InStableOrder(keys, r) && x !in r
    ensures InStableOrder(keys, Insert(keys, x, r))
  {
    if r == [] {
    } else if Before(keys, x, r[0]) {
      assert forall q :: 0 < q < |r| ==> Before(keys, r[0], r[q]);
    } else {
      var tail := r[1..];
      assert r == [r[0]] + tail;
      InsertInOrder(keys, x, tail);
      var t := Insert(keys, x, tail);
      assert x != r[0];
      HeadBeforeAll(keys, r, x, t);
      ConsInOrder(keys, r[0], t);
    }
  }

  /** The head of `r`, before `x` and before the rest of `r`, is before everything in `t`. */
  lemma HeadBeforeAll(keys: seq<int>, r: seq<nat>, x: nat, t: seq<nat>)
    requires x < |keys| && r != [] && InStableOrder(keys, r)
    requires Before(keys, r[0], x)
    requires forall p :: 0 <= p < |t| ==> t[p] < |keys|
    requires multiset(t) == multiset(r[1..]) + multiset{x}
    ensures forall q :: 0 <= q < |t| ==> Before(keys, r[0], t[q])
  {
    var tail := r[1..];
    forall q | 0 <= q < |t|
      ensures Before(keys, r[0], t[q])
    {
      assert t[q] in multiset(t);
      if t[q] != x {
        assert t[q] in multiset(tail);
        var k :| 0 <= k < |tail| && tail[k] == t[q];
        assert r[k + 1] == t[q];
      }
    }
  }

  /** A position before every one of an ordered sequence can go in front of it. */
  lemma ConsInOrder(keys: seq<int>, h: nat, t: seq<nat>)
    requires h < |keys| && InStableOrder(keys, t)
    requires forall q :: 0 <= q < |t| ==> Before(keys, h, t[q])
    ensures InStableOrder(keys, [h] + t)
  {
    var r := [h] + t;
    forall p, q | 0 <= p < q < |r| ensures Before(keys, r[p], r[q]) {
      assert r[q] == t[q - 1];
      if p > 0 { assert r[p] == t[p - 1]; }
    }
  }

  function Range(n: nat): (r: seq<nat>)
    ensures |r| == n && forall i :: 0 <= i < n ==> r[i] == i
  {
    if n == 0 then [] else Range(n - 1) + [n - 1]
  }

  /** The positions `0..n-1` of `keys` in the order a stable sort leaves them. */
  function StableOrder(keys: seq<int>, n: nat): (r: seq<nat>)
    requires n <= |keys|
    ensures InStableOrder(keys, r)
    ensures multiset(r) == multiset(Range(n))
  {
    if n == 0 then []
    else
      var prev := StableOrder(keys, n - 1);
      assert n - 1 !in multiset(Range(n - 1));
      InsertInOrder(keys, n - 1, prev);
      Insert(keys, n - 1, prev)
  }

  /** `sorted(items, key=...)`, with `keys[i]` the key of `items[i]`. */
  function StableSortByKey<T>(items: seq<T>, keys: seq<int>): (r: seq<T>)
    requires |keys| == |items|
    ensures |r| == |items|
  {
    var order := StableOrder(keys, |keys|);
    assert |order| == |keys| by { assert |multiset(order)| == |multiset(Range(|keys|))|; }
    seq(|order|, p requires 0 <= p < |order| => items[order[p]])
  }

  /**
   * The result of the stable sort: it is a permutation of the input, its
   * keys are in ascending order, and two items with equal keys keep their
   * relative order.
   */
  lemma StableSortCorrect<T>(items: seq<T>, keys: seq<int>)
    requires |keys| == |items|
    ensures var order := StableOrder(keys, |keys|);
      && |order| == |items|
      && multiset(order) == multiset(Range(|items|))
      && (forall p :: 0 <= p < |order| ==> order[p] < |items| && StableSortByKey(items, keys)[p] == items[order[p]])
      && (forall p, q :: 0 <= p < q < |order| ==> keys[order[p]] <= keys[order[q]])
      && (forall p, q :: 0 <= p < q < |order| && keys[order[p]] == keys[order[q]] ==> order[p] < order[q])
  {
    var order := StableOrder(keys, |keys|);
    assert |multiset(order)| == |multiset(Range(|keys|))|;
    var r := StableSortByKey(items, keys);
    assert r == seq(|order|, p requires 0 <= p < |order| => items[order[p]]);
  }

  /** Every position is below `n`. */
  predicate Below(positions: seq<nat>, n: nat) {
    forall x :: x in positions ==> x < n
  }

  /** The items at the given positions, in that order. */
  function Pick<T>(items: seq<T>, positions: seq<nat>): (r: seq<T>)
    requires Below(positions, |items|)
    ensures |r| == |positions|
    ensures forall p :: 0 <= p < |r| ==> positions[p] in positions && r[p] == items[positions[p]]
  {
    seq(|positions|, p requires 0 <= p < |positions| =>
      assert positions[p] in positions; items[positions[p]])
  }

  lemma PickAppend<T>(items: seq<T>, u: seq<nat>, v: seq<nat>)
    requires Below(u, |items|) && Below(v, |items|)
    ensures Below(u + v, |items|)
    ensures Pick(items, u + v) == Pick(items, u) + Pick(items, v)
  {
  }

  lemma MultisetRemoveAt(b: seq<nat>, k: nat)
    requires k < |b|
    ensures multiset(b[..k] + b[k + 1..]) == multiset(b) - multiset{b[k]}
  {
    assert b == b[..k] + [b[k]] + b[k + 1..];
  }

  /** Putting one position back: at the front of one ordering, at index `k` of the other. */
  lemma PickInsert<T>(items: seq<T>, a: seq<nat>, b: seq<nat>, k: nat)
    requires a != [] && k < |b| && a[0] == b[k] && Below(a, |items|) && Below(b, |items|)
    requires Below(a[1..], |items|) && Below(b[..k] + b[k + 1..], |items|)
    requires multiset(Pick(items, a[1..])) == multiset(Pick(items, b[..k] + b[k + 1..]))
    ensures multiset(Pick(items, a)) == multiset(Pick(items, b))
  {
    var x, pre, post := a[0], b[..k], b[k + 1..];
    assert x in a;
    assert Below(pre, |items|) && Below(post, |items|) by {
      forall y | y in pre || y in post ensures y < |items| { assert y in b; }
    }
    assert a == [x] + a[1..];
    assert b == pre + [x] + post;
    PickAppend(items, [x], a[1..]);
    PickAppend(items, pre, post);
    PickAppend(items, pre, [x]);
    PickAppend(items, pre + [x], post);
  }

  /** Picking along two orderings of the same positions gives the same items. */
  lemma {:induction false} PickPermutation<T>(items: seq<T>, a: seq<nat>, b: seq<nat>)
    requires Below(a, |items|) && Below(b, |items|)
    requires multiset(a) == multiset(b)
    ensures multiset(Pick(items, a)) == multiset(Pick(items, b))
    decreases |a|
  {
    if a == [] {
      assert |b| == |multiset(b)| == 0;
    } else {
      assert a[0] in multiset(b);
      var k :| 0 <= k < |b| && b[k] == a[0];
      RemoveFirst(|items|, a, b, k);
      PickPermutation(items, a[1..], b[..k] + b[k + 1..]);
      PickInsert(items, a, b, k);
    }
  }

  /** Taking the first position of `a` out of both orderings leaves two orderings of the same positions. */
  lemma RemoveFirst(n: nat, a: seq<nat>, b: seq<nat>, k: nat)
    requires Below(a, n) && Below(b, n) && multiset(a) == multiset(b)
    requires a != [] && k < |b| && b[k] == a[0]
    ensures Below(a[1..], n) && Below(b[..k] + b[k + 1..], n)
    ensures multiset(a[1..]) == multiset(b[..k] + b[k + 1..])
  {
    MultisetRemoveAt(b, k);
    MultisetRemoveAt(a, 0);
    assert a[..0] + a[1..] == a[1..];
    BelowTail(n, a);
    BelowRemoved(n, b, k);
  }

  lemma BelowTail(n: nat, a: seq<nat>)
    requires Below(a, n) && a != []
    ensures Below(a[1..], n)
  {
    forall y | y in a[1..] ensures y < n { assert y in a; }
  }

  lemma BelowRemoved(n: nat, b: seq<nat>, k: nat)
    requires Below(b, n) && k < |b|
    ensures Below(b[..k] + b[k + 1..], n)
  {
    var rest := b[..k] + b[k + 1..];
    forall y | y in rest ensures y < n {
      if y in b[..k] { assert y in b; } else { assert y in b[k + 1..]; assert y in b; }
    }
  }

  /** The stable sort only reorders: it keeps every item, as often as it occurs. */
  lemma StableSortPermutes<T>(items: seq<T>, keys: seq<int>)
    requires |keys| == |items|
    ensures multiset(StableSortByKey(items, keys)) == multiset(items)
  {
    var order := StableOrder(keys, |keys|);
    assert |multiset(order)| == |multiset(Range(|keys|))|;
    forall x | x in order ensures x < |items| {
      assert x in multiset(Range(|keys|));
    }
    assert StableSortByKey(items, keys) == Pick(items, order);
    PickPermutation(items, order, Range(|items|));
    assert Pick(items, Range(|items|)) == items;
  }
}
