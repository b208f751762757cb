/**
 * Sequence operations that the dashboard code uses through JavaScript's array
 * and string methods: `filter`, `includes` on strings, `join`, `split`,
 * `flatMap` and `Array.from(new Set(...))`.
 */
module Seqs {

  datatype Option<T> = None | Some(value: T)

  /** `s.filter(p)`: the elements of `s` that satisfy `p`, in their original order. */
  function Select<T(!new)>(s: seq<T>, p: T -> bool): (r: seq<T>)
    ensures |r| <= |s|
  {
    if s == [] then []
    else if p(s[0]) then [s[0]] + Select(s[1..], p)
    else Select(s[1..], p)
  }

  /** An element survives the filter exactly when it is in `s` and satisfies `p`. */
  lemma {:induction false} SelectMembers<T(!new)>(s: seq<T>, p: T -> bool)
    ensures forall x :: x in Select(s, p) <==> x in s && p(x)
  {
    if s != [] {
      SelectMembers(s[1..], p);
      assert s == [s[0]] + s[1..];
    }
  }

  /** `a` can be obtained from `b` by deleting elements (order preserved). */
  predicate IsSubsequence<T(==)>(a: seq<T>, b: seq<T>)
  {
    if a == [] then true
    else if b == [] then false
    else if a[0] == b[0] then IsSubsequence(a[1..], b[1..])
    else IsSubsequence(a, b[1..])
  }

  lemma {:induction false} SelectIsSubsequence<T(!new)>(s: seq<T>, p: T -> bool)
    ensures IsSubsequence(Select(s, p), s)
  {
    if s != [] {
      SelectIsSubsequence(s[1..], p);
      if !p(s[0]) {
        SubsequenceSkipHead(Select(s[1..], p), s);
      }
    }
  }

  lemma {:induction false} SubsequenceSkipHead<T>(a: seq<T>, b: seq<T>)
    requires b != [] && IsSubsequence(a, b[1..])
    ensures IsSubsequence(a, b)
    decreases |b|, |a|
  {
    if a != [] && a[0] == b[0] {
      // a[1..] is a subsequence of b[1..] because a is
      SubsequenceDropHead(a, b[1..]);
    }
  }

  lemma {:induction false} SubsequenceDropHead<T>(a: seq<T>, b: seq<T>)
    requires a != [] && IsSubsequence(a, b)
    ensures IsSubsequence(a[1..], b)
    decreases |b|, |a|
  {
    assert b != [];
    if a[0] == b[0] {
      SubsequenceSkipHead(a[1..], b);
    } else {
      SubsequenceDropHead(a, b[1..]);
      SubsequenceSkipHead(a[1..], b);
    }
  }

  /** Filtering keeps exactly the multiplicity of the elements that pass. */
  lemma {:induction false} SelectMultiset<T(!new)>(s: seq<T>, p: T -> bool, x: T)
    ensures multiset(Select(s, p))[x] == if p(x) then multiset(s)[x] else 0
  {
    if s != [] {
      SelectMultiset(s[1..], p, x);
      assert s == [s[0]] + s[1..];
    }
  }

  lemma {:induction false} SelectAppend<T(!new)>(a: seq<T>, b: seq<T>, p: T -> bool)
    ensures Select(a + b, p) == Select(a, p) + Select(b, p)
  {
    if a != [] {
      assert (a + b)[1..] == a[1..] + b;
      SelectAppend(a[1..], b, p);
    } else {
      assert a + b == b;
    }
  }

  /** Filtering by `p` and by its negation splits `s` in two. */
  lemma {:induction false} SelectPartition<T(!new)>(s: seq<T>, p: T -> bool, q: T -> bool)
    requires forall x :: q(x) == !p(x)
    ensures |Select(s, p)| + |Select(s, q)| == |s|
  {
    if s != [] {
      SelectPartition(s[1..], p, q);
    }
  }

  /** The filter keeps every element exactly when every element passes it. */
  lemma {:induction false} SelectLengthFull<T(!new)>(s: seq<T>, p: T -> bool)
    ensures |Select(s, p)| == |s| <==> forall i :: 0 <= i < |s| ==> p(s[i])
  {
    if s != [] {
      SelectLengthFull(s[1..], p);
      if forall i :: 0 <= i < |s| ==> p(s[i]) {
        assert forall i :: 0 <= i < |s| - 1 ==> p(s[1..][i]) by {
          forall i | 0 <= i < |s| - 1 ensures p(s[1..][i]) {
            assert s[1..][i] == s[i + 1];
          }
        }
      } else if p(s[0]) {
        var i :| 0 <= i < |s| && !p(s[i]);
        assert s[1..][i - 1] == s[i];
      }
    }
  }

  /** Filtering twice is filtering once by the conjunction. */
  lemma {:induction false} SelectSelect<T(!new)>(s: seq<T>, p: T -> bool, q: T -> bool, pq: T -> bool)
    requires forall x :: pq(x) == (p(x) && q(x))
    ensures Select(Select(s, p), q) == Select(s, pq)
  {
    if s != [] {
      SelectSelect(s[1..], p, q, pq);
    }
  }

  /** Filtering by a predicate every element already satisfies changes nothing. */
  lemma {:induction false} SelectAll<T(!new)>(s: seq<T>, p: T -> bool)
    requires forall x :: x in s ==> p(x)
    ensures Select(s, p) == s
  {
    if s != [] {
      SelectAll(s[1..], p);
    }
  }

  /** Two predicates that agree on the elements of `s` filter it alike. */
  lemma {:induction false} SelectSame<T(!new)>(s: seq<T>, p: T -> bool, q: T -> bool)
    requires forall x :: x in s ==> p(x) == q(x)
    ensures Select(s, p) == Select(s, q)
  {
    if s != [] {
      SelectSame(s[1..], p, q);
    }
  }

  /** `hay.startsWith(needle)`. */
  predicate StartsWith(hay: string, needle: string)
  {
    |needle| <= |hay| && hay[..|needle|] == needle
  }

  /** `hay.includes(needle)` for strings: some position of `hay` starts with `needle`. */
  predicate Includes(hay: string, needle: string)
    decreases |hay|
  {
    StartsWith(hay, needle) || (hay != [] && Includes(hay[1..], needle))
  }

  /** `needle` occurs in `hay` starting at position `i`. */
  predicate OccursAt(hay: string, needle: string, i: int)
  {
    0 <= i && i + |needle| <= |hay| && hay[i..i + |needle|] == needle
  }

  /** `Includes` agrees with the positional definition of a substring. */
  lemma {:induction false} IncludesAt(hay: string, needle: string)
    ensures Includes(hay, needle) <==> exists i :: OccursAt(hay, needle, i)
    decreases |hay|
  {
    if StartsWith(hay, needle) {
      assert OccursAt(hay, needle, 0);
    } else if hay != [] {
      IncludesAt(hay[1..], needle);
      if Includes(hay[1..], needle) {
        var i :| OccursAt(hay[1..], needle, i);
        assert hay[i + 1..i + 1 + |needle|] == hay[1..][i..i + |needle|];
        assert OccursAt(hay, needle, i + 1);
      }
      if exists i :: OccursAt(hay, needle, i) {
        var i :| OccursAt(hay, needle, i);
        assert i != 0;
        assert hay[1..][i - 1..i - 1 + |needle|] == hay[i..i + |needle|];
        assert OccursAt(hay[1..], needle, i - 1);
      }
    }
  }

  /** Number of occurrences of `c` in `s`. */
  function CountChar(s: string, c: char): nat
  {
    if s == [] then 0 else CountChar(s[..|s| - 1], c) + (if s[|s| - 1] == c then 1 else 0)
  }

  lemma {:induction false} CountCharAppend(a: string, b: string, c: char)
    ensures CountChar(a + b, c) == CountChar(a, c) + CountChar(b, c)
    decreases |b|
  {
    if b == [] {
      assert a + b == a;
    } else {
      assert (a + b)[..|a + b| - 1] == a + b[..|b| - 1];
      CountCharAppend(a, b[..|b| - 1], c);
    }
  }

  lemma {:induction false} CountCharAbsent(s: string, c: char)
    requires c !in s
    ensures CountChar(s, c) == 0
  {
    if s != [] {
      CountCharAbsent(s[..|s| - 1], c);
    }
  }

  lemma {:induction false} CountCharZero(s: string, c: char)
    ensures CountChar(s, c) == 0 <==> c !in s
  {
    if s != [] {
      CountCharZero(s[..|s| - 1], c);
      assert s == s[..|s| - 1] + [s[|s| - 1]];
    }
  }

  /** `xs.join(sep)`. */
  function Join(xs: seq<string>, sep: string): string
  {
    if xs == [] then ""
    else if |xs| == 1 then xs[0]
    else Join(xs[..|xs| - 1], sep) + sep + xs[|xs| - 1]
  }

  /** The part of `s` before the first `sep` (all of `s` if there is none). */
  function Before(s: string, sep: char): (r: string)
    ensures sep !in r
    ensures StartsWith(s, r)
    ensures |r| < |s| ==> s[|r|] == sep
  {
    if s == [] || s[0] == sep then "" else [s[0]] + Before(s[1..], sep)
  }

  /** `s.split(sep)` for a one-character separator. */
  function Split(s: string, sep: char): (r: seq<string>)
    ensures |r| >= 1
    decreases |s|
  {
    var head := Before(s, sep);
    if |head| == |s| then [s] else [head] + Split(s[|head| + 1..], sep)
  }

  /** Splitting a joined list on its separator gives the list back, when no item holds the separator. */
  lemma {:induction false} SplitJoin(xs: seq<string>, sep: char)
    requires xs != []
    requires forall i :: 0 <= i < |xs| ==> sep !in xs[i]
    ensures Split(Join(xs, [sep]), sep) == xs
  {
    if |xs| > 1 {
      var rest := xs[1..];
      assert forall i :: 0 <= i < |rest| ==> sep !in rest[i] by {
        forall i | 0 <= i < |rest| ensures sep !in rest[i] {
          assert rest[i] == xs[i + 1];
        }
      }
      SplitJoin(rest, sep);
      JoinCons(xs, [sep]);
      SplitAt(xs[0], Join(rest, [sep]), sep);
      assert xs == [xs[0]] + rest;
    } else {
      BeforeWhole(xs[0], sep);
    }
  }

  /** Splitting at the first separator: the text before it, then the split of the text after it. */
  lemma SplitAt(a: string, b: string, sep: char)
    requires sep !in a
    ensures Split(a + [sep] + b, sep) == [a] + Split(b, sep)
  {
    var s := a + [sep] + b;
    BeforeAppend(a, [sep] + b, sep);
    assert s == a + ([sep] + b);
    assert s[|a| + 1..] == b;
  }

  lemma {:induction false} BeforeWhole(s: string, sep: char)
    requires sep !in s
    ensures Before(s, sep) == s
  {
    if s != [] {
      BeforeWhole(s[1..], sep);
    }
  }

  lemma {:induction false} BeforeAppend(a: string, b: string, sep: char)
    requires sep !in a && b != [] && b[0] == sep
    ensures Before(a + b, sep) == a
  {
    if a != [] {
      assert (a + b)[1..] == a[1..] + b;
      BeforeAppend(a[1..], b, sep);
    } else {
      assert a + b == b;
    }
  }

  /** `Join` unfolds from the front as well as from the back. */
  lemma {:induction false} JoinCons(xs: seq<string>, sep: string)
    requires |xs| > 1
    ensures Join(xs, sep) == xs[0] + sep + Join(xs[1..], sep)
    decreases |xs|
  {
    if |xs| > 2 {
      JoinCons(xs[..|xs| - 1], sep);
      assert xs[..|xs| - 1][1..] == xs[1..][..|xs[1..]| - 1];
    } else {
      assert xs[1..] == [xs[1]];
    }
  }

  /** Occurrences of a character in a joined list: the items' own plus one per separator. */
  lemma {:induction false} CountCharJoin(xs: seq<string>, sep: string, c: char)
    requires xs != []
    ensures CountChar(Join(xs, sep), c) == CountCharAll(xs, c) + (|xs| - 1) * CountChar(sep, c)
    decreases |xs|
  {
    if |xs| > 1 {
      var init := xs[..|xs| - 1];
      CountCharJoin(init, sep, c);
      CountCharAppend(Join(init, sep) + sep, xs[|xs| - 1], c);
      CountCharAppend(Join(init, sep), sep, c);
    }
  }

  /** Occurrences of `c` summed over every item of `xs`. */
  function CountCharAll(xs: seq<string>, c: char): nat
  {
    if xs == [] then 0 else CountCharAll(xs[..|xs| - 1], c) + CountChar(xs[|xs| - 1], c)
  }

  lemma {:induction false} CountCharAllAbsent(xs: seq<string>, c: char)
    requires forall i :: 0 <= i < |xs| ==> c !in xs[i]
    ensures CountCharAll(xs, c) == 0
  {
    if xs != [] {
      CountCharAllAbsent(xs[..|xs| - 1], c);
      CountCharAbsent(xs[|xs| - 1], c);
    }
  }

  /** `s.split(sep)` has one more piece than `s` has separators. */
  lemma {:induction false} SplitLength(s: string, sep: char)
    ensures |Split(s, sep)| == CountChar(s, sep) + 1
    decreases |s|
  {
    var head := Before(s, sep);
    if |head| == |s| {
      assert head == s;
      CountCharAbsent(s, sep);
    } else {
      var rest := s[|head| + 1..];
      SplitLength(rest, sep);
      assert s == head + [sep] + rest;
      CountCharAppend(head + [sep], rest, sep);
      CountCharAppend(head, [sep], sep);
      CountCharAbsent(head, sep);
    }
  }

  lemma {:induction false} CountCharAllBound(xs: seq<string>, i: nat, c: char)
    requires i < |xs|
    ensures CountChar(xs[i], c) <= CountCharAll(xs, c)
  {
    if i < |xs| - 1 {
      CountCharAllBound(xs[..|xs| - 1], i, c);
    }
  }

  /** `xs.flatMap(f)` where `f` already gave the inner lists. */
  function Flatten<T(!new)>(xss: seq<seq<T>>): (r: seq<T>)
    ensures forall x :: x in r <==> exists i :: 0 <= i < |xss| && x in xss[i]
  {
    if xss == [] then []
    else
      var r := Flatten(xss[..|xss| - 1]) + xss[|xss| - 1];
      assert forall i :: 0 <= i < |xss| - 1 ==> xss[..|xss| - 1][i] == xss[i];
      r
  }

  /** No element occurs twice. */
  predicate NoDuplicates<T(==)>(s: seq<T>)
  {
    forall i, j :: 0 <= i < j < |s| ==> s[i] != s[j]
  }

  /** The position of the first occurrence of `x` in `s`. */
  function FirstIndex<T(==)>(s: seq<T>, x: T): (k: nat)
    requires x in s
    ensures k < |s| && s[k] == x && x !in s[..k]
  {
    if s[0] == x then 0 else 1 + FirstIndex(s[1..], x)
  }

  /**
   * `Array.from(new Set(s))`: a JavaScript Set iterates in insertion order,
   * so each distinct element appears once, at the place of its first occurrence.
   */
  function Distinct<T(==,!new)>(s: seq<T>): (r: seq<T>)
    ensures NoDuplicates(r)
    ensures forall x :: x in r <==> x in s
  {
    if s == [] then []
    else
      var d := Distinct(s[..|s| - 1]);
      var last := s[|s| - 1];
      assert forall x :: x in s <==> x in s[..|s| - 1] || x == last by {
        assert s == s[..|s| - 1] + [last];
      }
      if last in d then d else d + [last]
  }

  /** `xs.flatMap(x => x.tags || [])` before flattening: one tag list per element, empty where it has none. */
  function TagLists<T>(xs: seq<T>, tagsOf: T -> Option<seq<string>>): seq<seq<string>>
  {
    seq(|xs|, i requires 0 <= i < |xs| => if tagsOf(xs[i]).Some? then tagsOf(xs[i]).value else [])
  }

  /**
   * `Array.from(new Set(xs.flatMap(x => x.tags || [])))`: every tag of any
   * element, once each, in the order the tags first occur when the elements'
   * tag lists are read one after another.
   */
  function AllTagsOf<T(!new)>(xs: seq<T>, tagsOf: T -> Option<seq<string>>): (r: seq<string>)
    ensures NoDuplicates(r)
    ensures forall t :: t in r <==> t in Flatten(TagLists(xs, tagsOf))
    ensures forall t :: t in r <==> exists x :: x in xs && tagsOf(x).Some? && t in tagsOf(x).value
    ensures forall i, j :: 0 <= i < j < |r| ==>
      FirstIndex(Flatten(TagLists(xs, tagsOf)), r[i]) < FirstIndex(Flatten(TagLists(xs, tagsOf)), r[j])
  {
    var lists := TagLists(xs, tagsOf);
    DistinctFirstOccurrenceOrder(Flatten(lists));
    forall t | exists x :: x in xs && tagsOf(x).Some? && t in tagsOf(x).value
      ensures t in Flatten(lists)
    {
      var x :| x in xs && tagsOf(x).Some? && t in tagsOf(x).value;
      var i :| 0 <= i < |xs| && xs[i] == x;
      assert t in lists[i];
    }
    Distinct(Flatten(lists))
  }

  lemma {:induction false} FirstIndexPrefix<T>(s: seq<T>, n: nat, x: T)
    requires n <= |s| && x in s[..n]
    ensures FirstIndex(s, x) == FirstIndex(s[..n], x)
  {
    if s[0] != x {
      assert s[..n][1..] == s[1..][..n - 1];
      FirstIndexPrefix(s[1..], n - 1, x);
    }
  }

  /** The distinct elements come out in the order of their first occurrences. */
  lemma {:induction false} DistinctFirstOccurrenceOrder<T(!new)>(s: seq<T>)
    ensures forall i, j :: 0 <= i < j < |Distinct(s)| ==>
      FirstIndex(s, Distinct(s)[i]) < FirstIndex(s, Distinct(s)[j])
  {
    if s != [] {
      var init := s[..|s| - 1];
      var last := s[|s| - 1];
      var d := Distinct(init);
      DistinctFirstOccurrenceOrder(init);
      assert s[..|s| - 1] == init;
      forall i, j | 0 <= i < j < |Distinct(s)|
        ensures FirstIndex(s, Distinct(s)[i]) < FirstIndex(s, Distinct(s)[j])
      {
        FirstIndexPrefix(s, |s| - 1, d[i]);
        if j < |d| {
          FirstIndexPrefix(s, |s| - 1, d[j]);
        } else {
          assert Distinct(s)[j] == last && last !in init;
          assert FirstIndex(s, last) == |s| - 1;
        }
      }
    }
  }

  /** Number of occurrences of `x` in `s`. */
  function Count<T(==)>(s: seq<T>, x: T): nat
  {
    multiset(s)[x]
  }
}
