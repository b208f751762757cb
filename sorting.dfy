/**
 * `Array.prototype.sort` with a comparator, as the list view uses it.
 *
 * Since ECMAScript 2019 the sort is stable. A comparator is described here by
 * the relation `le(a, b)`, "compare(a, b) <= 0", which may put `a` before `b`;
 * for a consistent comparator it is a total preorder. The sort is modelled as
 * an in-place insertion sort on an array, specified by the function
 * `InsertionSort`, whose result is proved sorted, a permutation of its input,
 * and stable: the elements of each group of equal keys keep their order.
 */
module Sorting {

  /** A consistent comparator: total and transitive. */
  ghost predicate TotalPreorder<T(!new)>(le: (T, T) -> bool)
  {
    && (forall x, y :: le(x, y) || le(y, x))
    && (forall x, y, z :: le(x, y) && le(y, z) ==> le(x, z))
  }

  /** Neither element sorts strictly before the other. */
  predicate SameKey<T>(le: (T, T) -> bool, x: T, y: T)
  {
    le(x, y) && le(y, x)
  }

  predicate Sorted<T>(s: seq<T>, le: (T, T) -> bool)
  {
    forall i, j :: 0 <= i < j < |s| ==> le(s[i], s[j])
  }

  /** The elements of `s` whose key equals that of `k`, in their order in `s`. */
  function KeyGroup<T>(s: seq<T>, le: (T, T) -> bool, k: T): seq<T>
  {
    if s == [] then []
    else KeyGroup(s[..|s| - 1], le, k) + (if SameKey(le, s[|s| - 1], k) then [s[|s| - 1]] else [])
  }

  /** The result keeps, for every key, the order its elements had in `s`. */
  ghost predicate StableFor<T(!new)>(r: seq<T>, s: seq<T>, le: (T, T) -> bool)
  {
    forall k :: KeyGroup(r, le, k) == KeyGroup(s, le, k)
  }

  /**
   * Inserts `x` behind every element of the sorted `s` that may precede it:
   * the elements of `s` that sort strictly after `x` are passed over from the end.
   */
  function Insert<T>(x: T, s: seq<T>, le: (T, T) -> bool): seq<T>
  {
    if s == [] || le(s[|s| - 1], x) then s + [x]
    else Insert(x, s[..|s| - 1], le) + [s[|s| - 1]]
  }

  /** Sorts by inserting the elements one after another, the last one last. */
  function InsertionSort<T>(s: seq<T>, le: (T, T) -> bool): seq<T>
  {
    if s == [] then [] else Insert(s[|s| - 1], InsertionSort(s[..|s| - 1], le), le)
  }

  lemma {:induction false} InsertPermutes<T>(x: T, s: seq<T>, le: (T, T) -> bool)
    ensures multiset(Insert(x, s, le)) == multiset(s) + multiset{x}
  {
    if s != [] && !le(s[|s| - 1], x) {
      InsertPermutes(x, s[..|s| - 1], le);
      assert s == s[..|s| - 1] + [s[|s| - 1]];
    }
  }

  lemma {:induction false} InsertSorted<T(!new)>(x: T, s: seq<T>, le: (T, T) -> bool)
    requires TotalPreorder(le) && Sorted(s, le)
    ensures Sorted(Insert(x, s, le), le)
  {
    if s != [] {
      var init, last := s[..|s| - 1], s[|s| - 1];
      if !le(last, x) {
        InsertSorted(x, init, le);
        var r := Insert(x, init, le);
        InsertPermutes(x, init, le);
        forall y | y in r ensures le(y, last) {
          assert y in multiset(r);
          if y != x {
            assert y in multiset(init);
            var i :| 0 <= i < |init| && init[i] == y;
          }
        }
      }
    }
  }

  lemma {:induction false} KeyGroupAppend<T>(s: seq<T>, x: T, le: (T, T) -> bool, k: T)
    ensures KeyGroup(s + [x], le, k) == KeyGroup(s, le, k) + (if SameKey(le, x, k) then [x] else [])
  {
    assert (s + [x])[..|s|] == s;
  }

  /** The key group of a concatenation is the key groups of its parts, one after the other. */
  lemma {:induction false} KeyGroupConcat<T>(a: seq<T>, b: seq<T>, le: (T, T) -> bool, k: T)
    ensures KeyGroup(a + b, le, k) == KeyGroup(a, le, k) + KeyGroup(b, le, k)
    decreases |b|
  {
    if b == [] {
      assert a + b == a;
    } else {
      var init, last := b[..|b| - 1], b[|b| - 1];
      KeyGroupConcat(a, init, le, k);
      assert a + b == (a + init) + [last];
      KeyGroupAppend(a + init, last, le, k);
      assert b == init + [last];
      KeyGroupAppend(init, last, le, k);
    }
  }

  /** Inserting `x` adds it at the end of its key group and leaves every group otherwise as it was. */
  lemma {:induction false} InsertKeyGroup<T(!new)>(x: T, s: seq<T>, le: (T, T) -> bool, k: T)
    requires TotalPreorder(le)
    ensures KeyGroup(Insert(x, s, le), le, k) == KeyGroup(s, le, k) + (if SameKey(le, x, k) then [x] else [])
  {
    if s == [] || le(s[|s| - 1], x) {
      KeyGroupAppend(s, x, le, k);
    } else {
      var init, last := s[..|s| - 1], s[|s| - 1];
      InsertKeyGroup(x, init, le, k);
      KeyGroupAppend(Insert(x, init, le), last, le, k);
      if SameKey(le, x, k) {
        // last sorts strictly after x, so it is not in x's group
        assert !SameKey(le, last, k);
      }
    }
  }

  /** Whatever the comparator, the insertion sort rearranges its input. */
  lemma {:induction false} InsertionSortPermutes<T>(s: seq<T>, le: (T, T) -> bool)
    ensures multiset(InsertionSort(s, le)) == multiset(s)
  {
    if s != [] {
      var init, last := s[..|s| - 1], s[|s| - 1];
      InsertionSortPermutes(init, le);
      InsertPermutes(last, InsertionSort(init, le), le);
      assert s == init + [last];
    }
  }

  /** A list that is already sorted is left as it is. */
  lemma {:induction false} InsertionSortOfSorted<T>(s: seq<T>, le: (T, T) -> bool)
    requires Sorted(s, le)
    ensures InsertionSort(s, le) == s
  {
    if s != [] {
      var init, last := s[..|s| - 1], s[|s| - 1];
      forall i, j | 0 <= i < j < |init| ensures le(init[i], init[j]) {
        assert init[i] == s[i] && init[j] == s[j];
      }
      InsertionSortOfSorted(init, le);
      if init != [] {
        assert le(s[|s| - 2], last);
      }
      assert Insert(last, init, le) == init + [last];
      assert s == init + [last];
    }
  }

  /** The insertion sort is sorted, a permutation of its input, and stable. */
  lemma {:induction false} InsertionSortCorrect<T(!new)>(s: seq<T>, le: (T, T) -> bool)
    requires TotalPreorder(le)
    ensures Sorted(InsertionSort(s, le), le)
    ensures multiset(InsertionSort(s, le)) == multiset(s)
    ensures StableFor(InsertionSort(s, le), s, le)
  {
    if s != [] {
      var init, last := s[..|s| - 1], s[|s| - 1];
      InsertionSortCorrect(init, le);
      InsertSorted(last, InsertionSort(init, le), le);
      InsertPermutes(last, InsertionSort(init, le), le);
      assert s == init + [last];
      forall k ensures KeyGroup(InsertionSort(s, le), le, k) == KeyGroup(s, le, k) {
        InsertKeyGroup(last, InsertionSort(init, le), le, k);
      }
    }
  }

  /**
   * Where `x` lands: behind the last element of `s` that may precede it, when
   * every later element sorts strictly after it.
   */
  lemma {:induction false} InsertAt<T>(x: T, s: seq<T>, j: nat, le: (T, T) -> bool)
    requires j <= |s|
    requires forall k :: j <= k < |s| ==> !le(s[k], x)
    requires j > 0 ==> le(s[j - 1], x)
    ensures Insert(x, s, le) == s[..j] + [x] + s[j..]
    decreases |s|
  {
    if j < |s| {
      var init := s[..|s| - 1];
      InsertAt(x, init, j, le);
      assert init[..j] == s[..j];
      assert s[j..] == init[j..] + [s[|s| - 1]];
    } else {
      assert s[..j] == s;
    }
  }

  /** The sort of the list view, done in place on the copied array. */
  method SortInPlace<T>(a: array<T>, le: (T, T) -> bool)
    modifies a
    ensures a[..] == InsertionSort(old(a[..]), le)
  {
    ghost var orig := a[..];
    var i := 0;
    while i < a.Length
      invariant 0 <= i <= a.Length
      invariant a[..i] == InsertionSort(orig[..i], le)
      invariant a[i..] == orig[i..]
    {
      InsertNext(a, i, le);
      assert orig[..i + 1][..i] == orig[..i];
      assert orig[..i + 1][i] == orig[i];
      i := i + 1;
    }
    assert orig[..a.Length] == orig;
  }

  /** One step of the insertion sort: moves `a[i]` into the prefix `a[..i]`. */
  method InsertNext<T>(a: array<T>, i: nat, le: (T, T) -> bool)
    requires i < a.Length
    modifies a
    ensures a[..i + 1] == Insert(old(a[i]), old(a[..i]), le)
    ensures a[i + 1..] == old(a[i + 1..])
  {
    var x := a[i];
    ghost var p := a[..i];
    var j := i;
    while j > 0 && !le(a[j - 1], x)
      invariant 0 <= j <= i
      invariant a[..j] == p[..j]
      invariant a[j + 1..i + 1] == p[j..]
      invariant forall k :: j <= k < i ==> !le(p[k], x)
      invariant a[i + 1..] == old(a[i + 1..])
    {
      a[j] := a[j - 1];
      j := j - 1;
    }
    a[j] := x;
    InsertAt(x, p, j, le);
    assert a[..i + 1] == p[..j] + [x] + p[j..];
  }
}
