/**
 * The ordered multi-selection of the session form: a list of chosen
 * catalogue entries, toggled by id with `some`, `filter` and spread.
 * Written once over any entry type, with the entry's id given by `key`.
 */
module Selection {

  /** `xs.some(x => key(x) === k)`. */
  function HasKey<T>(xs: seq<T>, k: int, key: T -> int): (b: bool)
    ensures b <==> exists i :: 0 <= i < |xs| && key(xs[i]) == k
    decreases |xs|
  {
    if xs == [] then false else key(xs[0]) == k || HasKey(xs[1..], k, key)
  }

  /** `xs.filter(x => key(x) !== k)`. */
  function Without<T>(xs: seq<T>, k: int, key: T -> int): (r: seq<T>)
    ensures forall i :: 0 <= i < |r| ==> key(r[i]) != k
    ensures |r| <= |xs|
    decreases |xs|
  {
    if xs == [] then []
    else (if key(xs[0]) != k then [xs[0]] else []) + Without(xs[1..], k, key)
  }

  /** The entries kept are exactly those of another id. */
  lemma {:induction false} WithoutMembers<T(!new)>(xs: seq<T>, k: int, key: T -> int)
    ensures forall x :: x in Without(xs, k, key) <==> x in xs && key(x) != k
    decreases |xs|
  {
    if xs != [] {
      WithoutMembers(xs[1..], k, key);
      forall x ensures x in Without(xs, k, key) <==> x in xs && key(x) != k {
        assert x in xs <==> x == xs[0] || x in xs[1..];
      }
    }
  }

  /** `a` is `b` with some entries left out, the rest in their order. */
  predicate Subsequence<T(==)>(a: seq<T>, b: seq<T>)
    decreases |b|
  {
    if a == [] then true
    else if b == [] then false
    else (a[0] == b[0] && Subsequence(a[1..], b[1..])) || Subsequence(a, b[1..])
  }

  /** Filtering keeps the remaining entries in their original order. */
  lemma {:induction false} WithoutKeepsOrder<T>(xs: seq<T>, k: int, key: T -> int)
    ensures Subsequence(Without(xs, k, key), xs)
    decreases |xs|
  {
    if xs != [] {
      WithoutKeepsOrder(xs[1..], k, key);
      var r := Without(xs, k, key);
      if key(xs[0]) != k {
        assert r[0] == xs[0] && r[1..] == Without(xs[1..], k, key);
      } else {
        assert r == Without(xs[1..], k, key);
        if r != [] {
          assert Subsequence(r, xs[1..]);
        }
      }
    }
  }

  lemma {:induction false} WithoutAppend<T>(xs: seq<T>, ys: seq<T>, k: int, key: T -> int)
    ensures Without(xs + ys, k, key) == Without(xs, k, key) + Without(ys, k, key)
    decreases |xs|
  {
    if xs != [] {
      var zs := xs + ys;
      assert zs[0] == xs[0] && zs[1..] == xs[1..] + ys;
      var head := if key(xs[0]) != k then [xs[0]] else [];
      assert Without(zs, k, key) == head + Without(xs[1..] + ys, k, key);
      assert Without(xs, k, key) == head + Without(xs[1..], k, key);
      WithoutAppend(xs[1..], ys, k, key);
      assert head + (Without(xs[1..], k, key) + Without(ys, k, key))
          == (head + Without(xs[1..], k, key)) + Without(ys, k, key);
    } else {
      assert xs + ys == ys;
    }
  }

  /** The filter keeps every entry of another id as often as it occurs, and none of the id. */
  lemma {:induction false} WithoutCounts<T(!new)>(xs: seq<T>, k: int, key: T -> int)
    ensures forall x :: multiset(Without(xs, k, key))[x] == if key(x) != k then multiset(xs)[x] else 0
    decreases |xs|
  {
    if xs != [] {
      WithoutCounts(xs[1..], k, key);
      assert xs == [xs[0]] + xs[1..];
      var head := if key(xs[0]) != k then [xs[0]] else [];
      assert Without(xs, k, key) == head + Without(xs[1..], k, key);
    }
  }

  lemma {:induction false} WithoutAbsent<T>(xs: seq<T>, k: int, key: T -> int)
    requires !HasKey(xs, k, key)
    ensures Without(xs, k, key) == xs
    decreases |xs|
  {
    if xs != [] {
      WithoutAbsent(xs[1..], k, key);
    }
  }

  /** The handler's new selection: remove every entry with the item's id, or append the item. */
  function Toggle<T(==,!new)>(selection: seq<T>, item: T, key: T -> int): (r: seq<T>)
    ensures HasKey(r, key(item), key) <==> !HasKey(selection, key(item), key)
    ensures HasKey(selection, key(item), key) ==> r == Without(selection, key(item), key)
    ensures HasKey(selection, key(item), key) ==>
      (forall x :: x in r <==> x in selection && key(x) != key(item)) && Subsequence(r, selection)
    ensures HasKey(selection, key(item), key) ==>
      forall x :: multiset(r)[x] == if key(x) != key(item) then multiset(selection)[x] else 0
    ensures !HasKey(selection, key(item), key) ==> r == selection + [item]
  {
    if HasKey(selection, key(item), key) then
      WithoutKeepsOrder(selection, key(item), key);
      WithoutMembers(selection, key(item), key);
      WithoutCounts(selection, key(item), key);
      Without(selection, key(item), key)
    else
      assert (selection + [item])[|selection|] == item;
      selection + [item]
  }

  /** Toggling an entry that is not selected, twice, gives the selection back. */
  lemma ToggleTwice<T(!new)>(selection: seq<T>, item: T, key: T -> int)
    requires !HasKey(selection, key(item), key)
    ensures Toggle(Toggle(selection, item, key), item, key) == selection
  {
    WithoutAppend(selection, [item], key(item), key);
    WithoutAbsent(selection, key(item), key);
    assert Without([item], key(item), key) == [];
  }

  /** No two entries share an id. */
  predicate UniqueKeys<T>(xs: seq<T>, key: T -> int) {
    forall i, j :: 0 <= i < j < |xs| ==> key(xs[i]) != key(xs[j])
  }

  lemma {:induction false} SubsequenceUnique<T>(a: seq<T>, b: seq<T>, key: T -> int)
    requires Subsequence(a, b) && UniqueKeys(b, key)
    ensures UniqueKeys(a, key)
    decreases |b|
  {
    if a != [] {
      if a[0] == b[0] && Subsequence(a[1..], b[1..]) {
        SubsequenceUnique(a[1..], b[1..], key);
        SubsequenceMembers(a[1..], b[1..]);
        forall i, j | 0 <= i < j < |a| ensures key(a[i]) != key(a[j]) {
          if i == 0 {
            assert a[j] == a[1..][j - 1];
            assert a[j] in b[1..];
          } else {
            assert a[i] == a[1..][i - 1] && a[j] == a[1..][j - 1];
          }
        }
      } else {
        SubsequenceUnique(a, b[1..], key);
      }
    }
  }

  lemma {:induction false} SubsequenceMembers<T>(a: seq<T>, b: seq<T>)
    requires Subsequence(a, b)
    ensures forall x :: x in a ==> x in b
    decreases |b|
  {
    if a != [] {
      if a[0] == b[0] && Subsequence(a[1..], b[1..]) {
        SubsequenceMembers(a[1..], b[1..]);
        forall x | x in a ensures x in b {
          if x != a[0] {
            assert x in a[1..];
            assert x in b[1..];
          }
        }
      } else {
        SubsequenceMembers(a, b[1..]);
      }
    }
  }

  /** A selection without duplicate ids keeps that property under any toggle. */
  lemma ToggleKeepsKeysUnique<T(!new)>(selection: seq<T>, item: T, key: T -> int)
    requires UniqueKeys(selection, key)
    ensures UniqueKeys(Toggle(selection, item, key), key)
  {
    if HasKey(selection, key(item), key) {
      SubsequenceUnique(Toggle(selection, item, key), selection, key);
    } else {
      var r := selection + [item];
      forall i, j | 0 <= i < j < |r| ensures key(r[i]) != key(r[j]) {
        if j == |selection| {
          assert r[i] == selection[i];
        }
      }
    }
  }

  /** `xs.map(key)`: the ids in selection order. */
  function Keys<T>(xs: seq<T>, key: T -> int): (ids: seq<int>)
    ensures |ids| == |xs|
    ensures forall i :: 0 <= i < |xs| ==> ids[i] == key(xs[i])
    decreases |xs|
  {
    if xs == [] then [] else [key(xs[0])] + Keys(xs[1..], key)
  }
}
