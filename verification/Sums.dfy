/**
 * Sums over sequences and finite sets, and the rearrangements that leave them unchanged. A sum
 * takes its last element off, so a loop that adds one item at a time follows the definition.
 * `Group` is the part of a sum that one key collects, `Listing` the insertion order of a map's
 * keys, and `Partition` says that regrouping a list by any key loses nothing and adds nothing: the
 * step behind every breakdown of a bill. `FlatMapPermutation` is the step behind order independence.
 */
module Sums {
  import opened Wrappers

  function Sum(s: seq<int>): int {
    if |s| == 0 then 0 else Sum(s[..|s| - 1]) + s[|s| - 1]
  }

  function SumBy<T>(s: seq<T>, f: T -> int): int {
    if |s| == 0 then 0 else SumBy(s[..|s| - 1], f) + f(s[|s| - 1])
  }

  function Mapped<T>(s: seq<T>, f: T -> int): (r: seq<int>)
    ensures |r| == |s| && forall i :: 0 <= i < |s| ==> r[i] == f(s[i])
  {
    seq(|s|, i requires 0 <= i < |s| => f(s[i]))
  }

  lemma SumSnoc(s: seq<int>, x: int)
    ensures Sum(s + [x]) == Sum(s) + x
  {
    assert (s + [x])[..|s|] == s;
  }

  lemma {:induction false} SumPrefix(s: seq<int>, i: nat)
    requires i < |s|
    ensures Sum(s[..i + 1]) == Sum(s[..i]) + s[i]
  {
    assert s[..i + 1][..i] == s[..i];
  }

  lemma {:induction false} SumNonNegative(s: seq<int>)
    requires forall i :: 0 <= i < |s| ==> s[i] >= 0
    ensures Sum(s) >= 0
  {
    if |s| > 0 {
      SumNonNegative(s[..|s| - 1]);
    }
  }

  lemma {:induction false} SumByIsSum<T>(s: seq<T>, f: T -> int)
    ensures SumBy(s, f) == Sum(Mapped(s, f))
  {
    if |s| > 0 {
      SumByIsSum(s[..|s| - 1], f);
      assert Mapped(s, f)[..|s| - 1] == Mapped(s[..|s| - 1], f);
    }
  }

  lemma {:induction false} SumBySnoc<T>(s: seq<T>, x: T, f: T -> int)
    ensures SumBy(s + [x], f) == SumBy(s, f) + f(x)
  {
    assert (s + [x])[..|s|] == s;
  }

  lemma {:induction false} SumByPrefix<T>(s: seq<T>, i: nat, f: T -> int)
    requires i < |s|
    ensures SumBy(s[..i + 1], f) == SumBy(s[..i], f) + f(s[i])
  {
    assert s[..i + 1][..i] == s[..i];
  }

  lemma {:induction false} SumByConcat<T>(s: seq<T>, t: seq<T>, f: T -> int)
    ensures SumBy(s + t, f) == SumBy(s, f) + SumBy(t, f)
  {
    if |t| == 0 {
      assert s + t == s;
    } else {
      SumByConcat(s, t[..|t| - 1], f);
      assert (s + t)[..|s + t| - 1] == s + t[..|t| - 1];
    }
  }

  lemma {:induction false} SumByNonNegative<T>(s: seq<T>, f: T -> int)
    requires forall i :: 0 <= i < |s| ==> f(s[i]) >= 0
    ensures SumBy(s, f) >= 0
  {
    if |s| > 0 {
      SumByNonNegative(s[..|s| - 1], f);
    }
  }

  /** Functions that agree on every element have equal sums. */
  lemma {:induction false} SumByExt<T>(s: seq<T>, f: T -> int, g: T -> int)
    requires forall x :: x in s ==> f(x) == g(x)
    ensures SumBy(s, f) == SumBy(s, g)
  {
    if |s| > 0 {
      SumByExt(s[..|s| - 1], f, g);
    }
  }

  /** Two listings with equal terms position by position have equal sums. */
  lemma {:induction false} SumByZip<T, U>(s: seq<T>, t: seq<U>, f: T -> int, g: U -> int)
    requires |s| == |t| && forall i :: 0 <= i < |s| ==> f(s[i]) == g(t[i])
    ensures SumBy(s, f) == SumBy(t, g)
  {
    if |s| > 0 {
      SumByZip(s[..|s| - 1], t[..|t| - 1], f, g);
    }
  }

  lemma {:induction false} SumByPlus<T>(s: seq<T>, f: T -> int, g: T -> int, h: T -> int)
    requires forall x :: x in s ==> h(x) == f(x) + g(x)
    ensures SumBy(s, h) == SumBy(s, f) + SumBy(s, g)
  {
    if |s| > 0 {
      SumByPlus(s[..|s| - 1], f, g, h);
    }
  }

  /** A sum does not depend on the order of its terms. */
  lemma {:induction false} SumByPermutation<T>(a: seq<T>, b: seq<T>, f: T -> int)
    requires multiset(a) == multiset(b)
    ensures SumBy(a, f) == SumBy(b, f)
    decreases |a|
  {
    if |a| == 0 {
      assert |multiset(b)| == 0;
    } else {
      var x := a[|a| - 1];
      assert x in multiset(b);
      var j :| 0 <= j < |b| && b[j] == x;
      var rest := b[..j] + b[j + 1..];
      assert a == a[..|a| - 1] + [x];
      assert b == b[..j] + [x] + b[j + 1..];
      assert multiset(a[..|a| - 1]) == multiset(a) - multiset{x};
      assert multiset(rest) == multiset(b) - multiset{x};
      SumByPermutation(a[..|a| - 1], rest, f);
      SumByConcat(b[..j], b[j + 1..], f);
      SumByConcat(b[..j] + [x], b[j + 1..], f);
      SumBySnoc(b[..j], x, f);
    }
  }

  ghost function PickOne<T>(s: set<T>): (x: T)
    requires s != {}
    ensures x in s
  {
    var x :| x in s;
    x
  }

  /** The sum of `f` over a finite set. */
  ghost function SumSet<T>(s: set<T>, f: T -> int): int {
    if s == {} then 0
    else
      var x := PickOne(s);
      f(x) + SumSet(s - {x}, f)
  }

  lemma {:induction false} SumSetRemove<T>(s: set<T>, x: T, f: T -> int)
    requires x in s
    ensures SumSet(s, f) == f(x) + SumSet(s - {x}, f)
    decreases |s|
  {
    var y := PickOne(s);
    if y != x {
      SumSetRemove(s - {y}, x, f);
      SumSetRemove(s - {x}, y, f);
      assert s - {y} - {x} == s - {x} - {y};
    }
  }

  lemma {:induction false} SumSetExt<T>(s: set<T>, f: T -> int, g: T -> int)
    requires forall x :: x in s ==> f(x) == g(x)
    ensures SumSet(s, f) == SumSet(s, g)
    decreases |s|
  {
    if s != {} {
      SumSetExt(s - {PickOne(s)}, f, g);
    }
  }

  // ------------------------------------------------------- sums by group

  /** `f` on the items of group `k`, zero elsewhere. */
  function At<T, K(==)>(key: T -> K, f: T -> int, k: K): T -> int {
    (x: T) => if key(x) == k then f(x) else 0
  }

  /** The sum of `f` over the items whose key is `k`. */
  function Group<T, K(==)>(items: seq<T>, key: T -> K, f: T -> int, k: K): int {
    SumBy(items, At(key, f, k))
  }

  function GroupSums<T, K(==)>(items: seq<T>, key: T -> K, f: T -> int): K -> int {
    (k: K) => Group(items, key, f, k)
  }

  function Spike<T, K(==)>(key: T -> K, f: T -> int, x: T): K -> int {
    (k: K) => if key(x) == k then f(x) else 0
  }

  lemma {:induction false} SpikeSum<T, K>(ks: seq<K>, key: T -> K, f: T -> int, x: T)
    requires NoRepeats(ks)
    ensures SumBy(ks, Spike(key, f, x)) == if key(x) in ks then f(x) else 0
  {
    if |ks| > 0 {
      var front, last := ks[..|ks| - 1], ks[|ks| - 1];
      SpikeSum(front, key, f, x);
      assert ks == front + [last];
      assert last !in front;
    }
  }

  /** Splitting items into groups and adding up the group sums loses nothing and adds nothing. */
  lemma {:induction false} Partition<T, K>(items: seq<T>, key: T -> K, f: T -> int, ks: seq<K>)
    requires NoRepeats(ks) && forall x :: x in items ==> key(x) in ks
    ensures SumBy(ks, GroupSums(items, key, f)) == SumBy(items, f)
  {
    if |items| == 0 {
      ZeroSum(ks, GroupSums(items, key, f));
    } else {
      var front, last := items[..|items| - 1], items[|items| - 1];
      Partition(front, key, f, ks);
      SpikeSum(ks, key, f, last);
      SumByPlus(ks, GroupSums(front, key, f), Spike(key, f, last), GroupSums(items, key, f));
    }
  }

  lemma {:induction false} ZeroSum<T>(s: seq<T>, f: T -> int)
    requires forall x :: x in s ==> f(x) == 0
    ensures SumBy(s, f) == 0
  {
    if |s| > 0 {
      ZeroSum(s[..|s| - 1], f);
    }
  }

  lemma {:induction false} GroupNonNegative<T, K>(items: seq<T>, key: T -> K, f: T -> int, k: K)
    requires forall x :: x in items ==> f(x) >= 0
    ensures 0 <= Group(items, key, f, k) <= SumBy(items, f)
  {
    if |items| > 0 {
      GroupNonNegative(items[..|items| - 1], key, f, k);
    }
  }

  lemma GroupSnoc<T, K>(items: seq<T>, x: T, key: T -> K, f: T -> int, k: K)
    ensures Group(items + [x], key, f, k) == Group(items, key, f, k) + if key(x) == k then f(x) else 0
  {
    SumBySnoc(items, x, At(key, f, k));
  }

  /** A key no item has collects nothing. */
  lemma GroupAbsent<T, K>(items: seq<T>, key: T -> K, f: T -> int, k: K)
    requires forall x :: x in items ==> key(x) != k
    ensures Group(items, key, f, k) == 0
  {
    ZeroSum(items, At(key, f, k));
  }

  /** A key only one item has collects that item. */
  lemma {:induction false} GroupSingle<T, K>(items: seq<T>, key: T -> K, f: T -> int, i: nat)
    requires i < |items| && forall j :: 0 <= j < |items| && j != i ==> key(items[j]) != key(items[i])
    ensures Group(items, key, f, key(items[i])) == f(items[i])
  {
    var n := |items| - 1;
    if i == n {
      GroupAbsent(items[..n], key, f, key(items[i]));
    } else {
      GroupSingle(items[..n], key, f, i);
    }
  }

  /** The keys of the items, each once, in order of first appearance: the key order of a `Map`. */
  function Listing<T, K(==)>(items: seq<T>, key: T -> K): seq<K> {
    if |items| == 0 then []
    else
      var seen := Listing(items[..|items| - 1], key);
      var k := key(items[|items| - 1]);
      if k in seen then seen else seen + [k]
  }

  lemma {:induction false} ListingFacts<T, K>(items: seq<T>, key: T -> K)
    ensures NoRepeats(Listing(items, key))
    ensures forall x :: x in items ==> key(x) in Listing(items, key)
    ensures forall k :: k in Listing(items, key) ==> exists x :: x in items && key(x) == k
  {
    if |items| > 0 {
      var front, last := items[..|items| - 1], items[|items| - 1];
      ListingFacts(front, key);
      assert items == front + [last];
      assert last in items;
    }
  }

  lemma ListingSnoc<T, K>(items: seq<T>, x: T, key: T -> K)
    ensures Listing(items + [x], key) ==
            if key(x) in Listing(items, key) then Listing(items, key) else Listing(items, key) + [key(x)]
  {
    assert (items + [x])[..|items|] == items;
  }

  // ------------------------------------------------------- filtering

  function Filter<T>(s: seq<T>, keep: T -> bool): seq<T> {
    if |s| == 0 then []
    else if keep(s[|s| - 1]) then Filter(s[..|s| - 1], keep) + [s[|s| - 1]] else Filter(s[..|s| - 1], keep)
  }

  lemma {:induction false} FilterFacts<T>(s: seq<T>, keep: T -> bool)
    ensures forall x :: x in Filter(s, keep) <==> x in s && keep(x)
    ensures NoRepeats(s) ==> NoRepeats(Filter(s, keep))
  {
    if |s| > 0 {
      var front, last := s[..|s| - 1], s[|s| - 1];
      FilterFacts(front, keep);
      assert s == front + [last];
      assert NoRepeats(s) ==> last !in front;
    }
  }

  lemma FilterSnoc<T>(s: seq<T>, x: T, keep: T -> bool)
    ensures Filter(s + [x], keep) == if keep(x) then Filter(s, keep) + [x] else Filter(s, keep)
  {
    assert (s + [x])[..|s|] == s;
  }

  lemma {:induction false} FilterNone<T>(s: seq<T>, keep: T -> bool)
    requires forall x :: x in s ==> !keep(x)
    ensures Filter(s, keep) == []
  {
    if |s| > 0 {
      FilterNone(s[..|s| - 1], keep);
    }
  }

  // ------------------------------------------------------- flattening

  function FlatMap<T, U>(s: seq<T>, f: T -> seq<U>): seq<U> {
    if |s| == 0 then [] else FlatMap(s[..|s| - 1], f) + f(s[|s| - 1])
  }

  lemma FlatMapSnoc<T, U>(s: seq<T>, x: T, f: T -> seq<U>)
    ensures FlatMap(s + [x], f) == FlatMap(s, f) + f(x)
  {
    assert (s + [x])[..|s|] == s;
  }

  lemma {:induction false} FlatMapConcat<T, U>(a: seq<T>, b: seq<T>, f: T -> seq<U>)
    ensures FlatMap(a + b, f) == FlatMap(a, f) + FlatMap(b, f)
  {
    if |b| == 0 {
      assert a + b == a;
    } else {
      FlatMapConcat(a, b[..|b| - 1], f);
      assert (a + b)[..|a + b| - 1] == a + b[..|b| - 1];
    }
  }

  lemma MultisetMiddle<U>(a: seq<U>, b: seq<U>, c: seq<U>)
    ensures multiset(a + b + c) == multiset(a + c) + multiset(b)
  {}

  lemma {:induction false} FlatMapRemove<T, U>(s: seq<T>, j: nat, f: T -> seq<U>)
    requires j < |s|
    ensures multiset(FlatMap(s, f)) == multiset(FlatMap(s[..j] + s[j + 1..], f)) + multiset(f(s[j]))
  {
    var front, tail := s[..j], s[j + 1..];
    assert s == front + [s[j]] + tail;
    FlatMapConcat(front + [s[j]], tail, f);
    FlatMapSnoc(front, s[j], f);
    FlatMapConcat(front, tail, f);
    MultisetMiddle(FlatMap(front, f), f(s[j]), FlatMap(tail, f));
  }

  lemma MultisetRemove<T>(s: seq<T>, j: nat)
    requires j < |s|
    ensures multiset(s[..j] + s[j + 1..]) == multiset(s) - multiset{s[j]}
  {
    assert s == s[..j] + [s[j]] + s[j + 1..];
  }

  /** Reordering the sources reorders the flattened items and nothing else. */
  lemma {:induction false} FlatMapPermutation<T, U>(a: seq<T>, b: seq<T>, f: T -> seq<U>)
    requires multiset(a) == multiset(b)
    ensures multiset(FlatMap(a, f)) == multiset(FlatMap(b, f))
    decreases |a|
  {
    if |a| == 0 {
      assert |multiset(b)| == 0;
    } else {
      var n := |a| - 1;
      assert a[n] in multiset(b);
      var j :| 0 <= j < |b| && b[j] == a[n];
      MultisetRemove(a, n);
      MultisetRemove(b, j);
      FlatMapRemove(b, j, f);
      FlatMapRemove(a, n, f);
      FlatMapPermutation(a[..n] + a[n + 1..], b[..j] + b[j + 1..], f);
    }
  }
}
