/**
 * Sorting by a strict total order. The runtime's sort is some stable sort; an insertion sort
 * stands for it. Where the comparator never ties two different elements, the sorted list depends
 * only on which elements there are (`SortedUnique`), so neither the algorithm nor the order of the
 * input can be seen in the answer. Where elements can tie, the order of the input decides among
 * them, as it does in the source.
 */
module Sorting {
  import opened Wrappers

  /** Each element is strictly before every later one. */
  ghost predicate StrictlySorted<T(!new)>(s: seq<T>, less: (T, T) -> bool) {
    forall i, j :: 0 <= i < j < |s| ==> less(s[i], s[j])
  }

  /** `less` totally and strictly orders the elements of `universe`. */
  ghost predicate OrdersStrictly<T(!new)>(less: (T, T) -> bool, universe: set<T>) {
    && (forall x :: x in universe ==> !less(x, x))
    && (forall x, y :: x in universe && y in universe && x != y ==> less(x, y) || less(y, x))
    && (forall x, y, z ::
          (x in universe && y in universe && z in universe && less(x, y) && less(y, z)) ==> less(x, z))
  }

  function Elements<T>(s: seq<T>): set<T> {
    set x | x in s
  }

  /** Puts `x` before the first element that does not precede it. */
  function Insert<T>(x: T, s: seq<T>, less: (T, T) -> bool): seq<T> {
    if |s| == 0 || !less(s[0], x) then [x] + s
    else [s[0]] + Insert(x, s[1..], less)
  }

  lemma {:induction false} InsertMultiset<T(!new)>(x: T, s: seq<T>, less: (T, T) -> bool)
    ensures multiset(Insert(x, s, less)) == multiset(s) + multiset{x}
  {
    if |s| > 0 && less(s[0], x) {
      InsertMultiset(x, s[1..], less);
      assert s == [s[0]] + s[1..];
    }
  }

  lemma InsertElements<T(!new)>(x: T, s: seq<T>, less: (T, T) -> bool)
    ensures multiset(Insert(x, s, less)) == multiset(s) + multiset{x}
    ensures Elements(Insert(x, s, less)) == Elements(s) + {x}
  {
    InsertMultiset(x, s, less);
    var inserted := Insert(x, s, less);
    forall y ensures y in Elements(inserted) <==> y in Elements(s) + {x} {
      assert y in multiset(inserted) <==> y in multiset(s) || y == x;
    }
  }

  lemma {:induction false} InsertSorted<T(!new)>(x: T, s: seq<T>, less: (T, T) -> bool)
    requires StrictlySorted(s, less) && x !in s
    requires OrdersStrictly(less, Elements(s) + {x})
    ensures StrictlySorted(Insert(x, s, less), less)
  {
    if |s| == 0 {
    } else if !less(s[0], x) {
      assert s[0] in Elements(s) + {x};
      forall j | 0 <= j < |s| ensures less(x, s[j]) {
        if j > 0 { assert less(s[0], s[j]); }
      }
    } else {
      assert s[0] in Elements(s);
      assert less(s[0], x);
      assert Elements(s[1..]) <= Elements(s);
      InsertSorted(x, s[1..], less);
      InsertElements(x, s[1..], less);
      var rest := Insert(x, s[1..], less);
      forall j | 0 <= j < |rest| ensures less(s[0], rest[j]) {
        assert rest[j] in Elements(rest);
        if rest[j] != x {
          var k :| 0 <= k < |s[1..]| && s[1..][k] == rest[j];
          assert less(s[0], s[k + 1]);
        }
      }
    }
  }

  /** Insertion sort from the back, so equal elements keep their order: stands for the stable
      `Array.prototype.sort`. */
  function Sort<T>(s: seq<T>, less: (T, T) -> bool): seq<T> {
    if |s| == 0 then [] else Insert(s[0], Sort(s[1..], less), less)
  }

  lemma {:induction false} SortMultiset<T(!new)>(s: seq<T>, less: (T, T) -> bool)
    ensures multiset(Sort(s, less)) == multiset(s)
  {
    if |s| > 0 {
      var tail := s[1..];
      SortMultiset(tail, less);
      InsertMultiset(s[0], Sort(tail, less), less);
      assert s == [s[0]] + tail;
      assert multiset(s) == multiset{s[0]} + multiset(tail);
    }
  }

  lemma SortElements<T(!new)>(s: seq<T>, less: (T, T) -> bool)
    ensures multiset(Sort(s, less)) == multiset(s)
    ensures Elements(Sort(s, less)) == Elements(s)
    ensures |Sort(s, less)| == |s|
  {
    SortMultiset(s, less);
    assert |multiset(Sort(s, less))| == |multiset(s)|;
    assert forall x :: x in Sort(s, less) <==> x in multiset(Sort(s, less));
  }

  lemma {:induction false} SortSorts<T(!new)>(s: seq<T>, less: (T, T) -> bool)
    requires NoRepeats(s) && OrdersStrictly(less, Elements(s))
    ensures StrictlySorted(Sort(s, less), less)
  {
    if |s| > 0 {
      var tail := s[1..];
      assert Elements(tail) <= Elements(s);
      SortSorts(tail, less);
      SortElements(tail, less);
      var sorted := Sort(tail, less);
      assert s[0] !in tail;
      assert s[0] !in Elements(sorted);
      assert Elements(sorted) + {s[0]} <= Elements(s);
      InsertSorted(s[0], sorted, less);
    }
  }

  /** Nothing in a strictly sorted sequence precedes its head. */
  lemma HeadIsLeast<T(!new)>(s: seq<T>, less: (T, T) -> bool, x: T)
    requires |s| > 0 && StrictlySorted(s, less) && x in s
    ensures x == s[0] || less(s[0], x)
  {
    var k :| 0 <= k < |s| && s[k] == x;
  }

  lemma TailElements<T(!new)>(s: seq<T>, less: (T, T) -> bool)
    requires |s| > 0 && StrictlySorted(s, less) && OrdersStrictly(less, Elements(s))
    ensures Elements(s[1..]) == Elements(s) - {s[0]}
  {
    assert s == [s[0]] + s[1..];
    assert s[0] in Elements(s);
    forall x | x in s[1..] ensures x != s[0] {
      var k :| 0 <= k < |s[1..]| && s[1..][k] == x;
      assert less(s[0], s[k + 1]);
    }
  }

  /** A strictly sorted listing of a set is unique. */
  lemma {:induction false} SortedUnique<T(!new)>(s: seq<T>, t: seq<T>, less: (T, T) -> bool)
    requires StrictlySorted(s, less) && StrictlySorted(t, less)
    requires Elements(s) == Elements(t)
    requires OrdersStrictly(less, Elements(s))
    ensures s == t
    decreases |s|
  {
    assert forall i :: 0 <= i < |s| ==> s[i] in Elements(t);
    assert forall i :: 0 <= i < |t| ==> t[i] in Elements(s);
    if |s| > 0 {
      HeadIsLeast(t, less, s[0]);
      HeadIsLeast(s, less, t[0]);
      TailElements(s, less);
      TailElements(t, less);
      SortedUnique(s[1..], t[1..], less);
      assert s == [s[0]] + s[1..] && t == [t[0]] + t[1..];
    }
  }

  // ---------------------------------------------------------------- largest first, ties in input order

  /** `less` puts the larger rank first. */
  ghost predicate Ranks<T(!new)>(less: (T, T) -> bool, rank: T -> int) {
    forall x, y :: less(x, y) <==> rank(x) > rank(y)
  }

  ghost predicate Descends<T(!new)>(s: seq<T>, rank: T -> int) {
    forall i, j :: 0 <= i < j < |s| ==> rank(s[i]) >= rank(s[j])
  }

  /** The elements of one rank, in order. */
  function OfRank<T>(s: seq<T>, rank: T -> int, r: int): seq<T> {
    if |s| == 0 then [] else (if rank(s[0]) == r then [s[0]] else []) + OfRank(s[1..], rank, r)
  }

  /** The same elements, largest rank first and those of one rank in the order they had. */
  ghost predicate LargestFirst<T(!new)>(sorted: seq<T>, s: seq<T>, rank: T -> int) {
    && multiset(sorted) == multiset(s)
    && Descends(sorted, rank)
    && forall r :: OfRank(sorted, rank, r) == OfRank(s, rank, r)
  }

  lemma {:induction false} InsertDescends<T(!new)>(x: T, s: seq<T>, less: (T, T) -> bool, rank: T -> int)
    requires Ranks(less, rank) && Descends(s, rank)
    ensures Descends(Insert(x, s, less), rank)
  {
    if |s| > 0 && less(s[0], x) {
      InsertDescends(x, s[1..], less, rank);
      InsertElements(x, s[1..], less);
      var rest := Insert(x, s[1..], less);
      forall j | 0 <= j < |rest| ensures rank(s[0]) >= rank(rest[j]) {
        assert rest[j] in Elements(rest);
        if rest[j] != x {
          var k :| 0 <= k < |s[1..]| && s[1..][k] == rest[j];
          assert rank(s[0]) >= rank(s[k + 1]);
        }
      }
    }
  }

  lemma {:induction false} InsertOfRank<T(!new)>(x: T, s: seq<T>, less: (T, T) -> bool, rank: T -> int, r: int)
    requires Ranks(less, rank)
    ensures OfRank(Insert(x, s, less), rank, r) == OfRank([x] + s, rank, r)
  {
    assert ([x] + s)[1..] == s;
    if |s| > 0 && less(s[0], x) {
      InsertOfRank(x, s[1..], less, rank, r);
      assert ([x] + s[1..])[1..] == s[1..];
      assert ([s[0]] + Insert(x, s[1..], less))[1..] == Insert(x, s[1..], less);
    }
  }

  lemma {:induction false} SortDescends<T(!new)>(s: seq<T>, less: (T, T) -> bool, rank: T -> int, r: int)
    requires Ranks(less, rank)
    ensures Descends(Sort(s, less), rank)
    ensures OfRank(Sort(s, less), rank, r) == OfRank(s, rank, r)
  {
    if |s| > 0 {
      SortDescends(s[1..], less, rank, r);
      InsertDescends(s[0], Sort(s[1..], less), less, rank);
      InsertOfRank(s[0], Sort(s[1..], less), less, rank, r);
      var rest := Sort(s[1..], less);
      assert ([s[0]] + rest)[1..] == rest;
    }
  }

  /** Sorting by a rank does that, whatever ties there are. */
  lemma SortsLargestFirst<T(!new)>(s: seq<T>, less: (T, T) -> bool, rank: T -> int)
    requires Ranks(less, rank)
    ensures LargestFirst(Sort(s, less), s, rank)
  {
    SortMultiset(s, less);
    SortDescends(s, less, rank, 0);
    forall r: int ensures OfRank(Sort(s, less), rank, r) == OfRank(s, rank, r) {
      SortDescends(s, less, rank, r);
    }
  }

  lemma {:induction false} SortedDistinct<T(!new)>(s: seq<T>, less: (T, T) -> bool)
    requires StrictlySorted(s, less) && OrdersStrictly(less, Elements(s))
    ensures NoRepeats(s)
  {
    forall i, j | 0 <= i < j < |s| ensures s[i] != s[j] {
      assert s[i] in Elements(s);
      assert less(s[i], s[j]);
    }
  }
}
