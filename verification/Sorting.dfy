/** What sort.Slice promises, and why an unstable sort still fixes the sequence of sort keys. */
module Sorting {

  ghost predicate StrictWeakOrder<T(!new)>(less: (T, T) -> bool) {
    && (forall x :: !less(x, x))
    && (forall x, y, z :: less(x, y) && less(y, z) ==> less(x, z))
    && (forall x, y, z :: !less(x, y) && !less(y, x) && !less(y, z) && !less(z, y) ==> !less(x, z) && !less(z, x))
  }

  ghost predicate Sorted<T>(xs: seq<T>, less: (T, T) -> bool) {
    forall i, j :: 0 <= i < j < |xs| ==> !less(xs[j], xs[i])
  }

  lemma NegativeTransitivity<T(!new)>(less: (T, T) -> bool, x: T, y: T, z: T)
    requires StrictWeakOrder(less) && !less(y, x) && !less(z, y)
    ensures !less(z, x)
  {
    assert less(z, x) && less(x, y) ==> less(z, y);
    assert less(y, z) && less(z, x) ==> less(y, x);
  }

  function Insert<T(!new)>(x: T, xs: seq<T>, less: (T, T) -> bool): (r: seq<T>)
    requires StrictWeakOrder(less) && Sorted(xs, less)
    ensures multiset(r) == multiset(xs) + multiset{x} && Sorted(r, less)
  {
    if xs == [] || !less(xs[0], x) then
      FrontIsLeast(x, xs, less);
      [x] + xs
    else
      assert xs == [xs[0]] + xs[1..];
      var rest := Insert(x, xs[1..], less);
      InsertedAfter(xs, x, rest, less);
      [xs[0]] + rest
  }

  lemma FrontIsLeast<T(!new)>(x: T, xs: seq<T>, less: (T, T) -> bool)
    requires StrictWeakOrder(less) && Sorted(xs, less) && (xs == [] || !less(xs[0], x))
    ensures Sorted([x] + xs, less)
  {
    forall j | 0 < j < |xs| ensures !less(xs[j], x) {
      NegativeTransitivity(less, x, xs[0], xs[j]);
    }
  }

  lemma InsertedAfter<T(!new)>(xs: seq<T>, x: T, rest: seq<T>, less: (T, T) -> bool)
    requires StrictWeakOrder(less) && Sorted(xs, less) && Sorted(rest, less)
    requires xs != [] && less(xs[0], x) && multiset(rest) == multiset(xs[1..]) + multiset{x}
    ensures Sorted([xs[0]] + rest, less)
  {
    forall j | 0 <= j < |rest| ensures !less(rest[j], xs[0]) {
      assert rest[j] in multiset(rest);
      assert rest[j] == x || rest[j] in xs[1..];
      if less(x, xs[0]) { assert less(x, x); }
    }
  }

  /** sort.Slice: some permutation that is sorted. Callers may rely on the contract only. */
  function Sort<T(!new)>(xs: seq<T>, less: (T, T) -> bool): (r: seq<T>)
    requires StrictWeakOrder(less)
    ensures multiset(r) == multiset(xs) && Sorted(r, less)
  {
    if xs == [] then []
    else
      assert xs == [xs[0]] + xs[1..];
      Insert(xs[0], Sort(xs[1..], less), less)
  }

  // ----- Sort keys: (rank ascending, time descending) -----

  datatype Key = Key(rank: int, time: int)

  predicate KeyLess(a: Key, b: Key) {
    if a.rank != b.rank then a.rank < b.rank else a.time > b.time
  }

  function Keys<T>(xs: seq<T>, key: T -> Key): seq<Key> {
    seq(|xs|, i requires 0 <= i < |xs| => key(xs[i]))
  }

  /** `xs` without its element at `j`. */
  function Without<T>(xs: seq<T>, j: nat): seq<T>
    requires j < |xs|
  {
    xs[..j] + xs[j + 1..]
  }

  lemma WithoutCounts<T>(xs: seq<T>, j: nat)
    requires j < |xs|
    ensures multiset(Without(xs, j)) == multiset(xs) - multiset{xs[j]}
    ensures multiset(xs) == multiset(Without(xs, j)) + multiset{xs[j]}
  {
    var a, x, b := xs[..j], xs[j], xs[j + 1..];
    assert xs == a + [x] + b;
    assert multiset(a + [x] + b) == multiset(a) + multiset{x} + multiset(b);
    assert multiset(a + b) == multiset(a) + multiset(b);
  }

  lemma KeysWithout<T>(xs: seq<T>, j: nat, key: T -> Key)
    requires j < |xs|
    ensures multiset(Keys(xs, key)) == multiset(Keys(Without(xs, j), key)) + multiset{key(xs[j])}
  {
    WithoutCounts(Keys(xs, key), j);
    assert Keys(Without(xs, j), key) == Without(Keys(xs, key), j);
  }

  lemma {:induction false} KeysOfPermutation<T>(xs: seq<T>, ys: seq<T>, key: T -> Key)
    requires multiset(xs) == multiset(ys)
    ensures multiset(Keys(xs, key)) == multiset(Keys(ys, key))
    decreases |xs|
  {
    assert |multiset(xs)| == |xs| && |multiset(ys)| == |ys|;
    if xs != [] {
      assert xs[0] in multiset(ys);
      var j :| 0 <= j < |ys| && ys[j] == xs[0];
      WithoutCounts(xs, 0);
      WithoutCounts(ys, j);
      KeysOfPermutation(Without(xs, 0), Without(ys, j), key);
      KeysWithout(xs, 0, key);
      KeysWithout(ys, j, key);
    }
  }

  lemma HeadsAgree(ks: seq<Key>, ls: seq<Key>)
    requires Sorted(ks, KeyLess) && Sorted(ls, KeyLess) && multiset(ks) == multiset(ls) && ks != [] && ls != []
    ensures ks[0] == ls[0]
  {
    assert ks[0] in multiset(ls) && ls[0] in multiset(ks);
    HeadIsLeast(ks, ls[0]);
    HeadIsLeast(ls, ks[0]);
  }

  lemma SortedTail(ks: seq<Key>)
    requires Sorted(ks, KeyLess) && ks != []
    ensures Sorted(ks[1..], KeyLess) && multiset(ks[1..]) == multiset(ks) - multiset{ks[0]}
  {
    WithoutCounts(ks, 0);
    assert Without(ks, 0) == ks[1..];
  }

  lemma {:induction false} SortedKeysUnique(ks: seq<Key>, ls: seq<Key>)
    requires Sorted(ks, KeyLess) && Sorted(ls, KeyLess) && multiset(ks) == multiset(ls)
    ensures ks == ls
    decreases |ks|
  {
    assert |ks| == |multiset(ks)| == |multiset(ls)| == |ls|;
    if ks != [] {
      HeadsAgree(ks, ls);
      SortedTail(ks);
      SortedTail(ls);
      SortedKeysUnique(ks[1..], ls[1..]);
      assert ks == [ks[0]] + ks[1..] && ls == [ls[0]] + ls[1..];
    }
  }

  lemma HeadIsLeast(ks: seq<Key>, k: Key)
    requires Sorted(ks, KeyLess) && k in ks
    ensures !KeyLess(k, ks[0])
  {
    var i :| 0 <= i < |ks| && ks[i] == k;
  }
}
