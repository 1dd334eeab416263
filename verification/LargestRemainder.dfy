/**
 * Largest-remainder allocation: integer parts that close with an integer total.
 * Both users, displayed cents (money.ts) and basis points (statement-engine.ts),
 * floor every part, order the parts by remainder and then by index, and raise the
 * first `deficit` of them by one. The conditions that describe the outcome admit one
 * allocation only (`AllocationUnique`).
 */
module LargestRemainder {
  import opened Wrappers
  import opened Sums
  import opened Sorting

  /** Part `a` is raised before part `b`: larger remainder, ties to the lower index. */
  predicate Beats(rems: seq<nat>, a: nat, b: nat) {
    a < |rems| && b < |rems| && (rems[a] > rems[b] || (rems[a] == rems[b] && a < b))
  }

  function BeatsIn(rems: seq<nat>): (nat, nat) -> bool {
    (a: nat, b: nat) => Beats(rems, a, b)
  }

  ghost function Below(n: nat): set<nat> {
    Elements(Upto(n))
  }

  /** The indices of `rems` in the order in which they are raised. */
  function Order(rems: seq<nat>): seq<nat> {
    Sort(Upto(|rems|), BeatsIn(rems))
  }

  lemma OrderFacts(rems: seq<nat>)
    ensures |Order(rems)| == |rems| && Elements(Order(rems)) == Below(|rems|)
    ensures NoRepeats(Order(rems)) && StrictlySorted(Order(rems), BeatsIn(rems))
    ensures forall i :: 0 <= i < |rems| ==> Order(rems)[i] < |rems|
  {
    var idx := Upto(|rems|);
    forall i: nat | i < |rems| ensures i in Elements(idx) {
      assert idx[i] == i;
    }
    assert Elements(idx) == Below(|rems|);
    SortElements(idx, BeatsIn(rems));
    SortSorts(idx, BeatsIn(rems));
    SortedDistinct(Order(rems), BeatsIn(rems));
    forall i | 0 <= i < |rems| ensures Order(rems)[i] < |rems| {
      assert Order(rems)[i] in Elements(Order(rems));
    }
  }

  function Allocation(floors: seq<nat>, rems: seq<nat>, deficit: nat): (parts: seq<nat>)
    requires |floors| == |rems|
    ensures |parts| == |floors|
  {
    var raised := if deficit <= |Order(rems)| then Order(rems)[..deficit] else Order(rems);
    seq(|floors|, i requires 0 <= i < |floors| => floors[i] + if i in raised then 1 else 0)
  }

  ghost function Raised(floors: seq<nat>, parts: seq<nat>): set<nat>
    requires |floors| == |parts|
  {
    set i: nat | i < |floors| && parts[i] == floors[i] + 1
  }

  /** What an allocation must satisfy, with no reference to any ordering of the parts. */
  ghost predicate IsLargestRemainder(floors: seq<nat>, rems: seq<nat>, deficit: nat, parts: seq<nat>) {
    && |floors| == |rems| == |parts|
    && (forall i :: 0 <= i < |parts| ==> floors[i] <= parts[i] <= floors[i] + 1)
    && |Raised(floors, parts)| == deficit
    && (forall i, j :: i in Raised(floors, parts) && 0 <= j < |parts| && j !in Raised(floors, parts)
                       ==> Beats(rems, i, j))
  }

  lemma {:induction false} DistinctCardinality(s: seq<nat>)
    requires NoRepeats(s)
    ensures |Elements(s)| == |s|
  {
    if |s| > 0 {
      DistinctCardinality(s[..|s| - 1]);
      assert s == s[..|s| - 1] + [s[|s| - 1]];
      assert Elements(s) == Elements(s[..|s| - 1]) + {s[|s| - 1]};
    }
  }

  lemma PositionAfter(s: seq<nat>, n: nat, x: nat) returns (q: nat)
    requires n <= |s| && x in s && x !in s[..n]
    ensures n <= q < |s| && s[q] == x
  {
    q :| 0 <= q < |s| && s[q] == x;
  }

  lemma RaisedInAllocation(floors: seq<nat>, rems: seq<nat>, deficit: nat)
    requires |floors| == |rems| && deficit <= |rems|
    ensures deficit <= |Order(rems)|
    ensures Raised(floors, Allocation(floors, rems, deficit)) == Elements(Order(rems)[..deficit])
    ensures |Elements(Order(rems)[..deficit])| == deficit
  {
    OrderFacts(rems);
    DistinctCardinality(Order(rems)[..deficit]);
  }

  /** The computed allocation meets the declarative specification. */
  lemma AllocationIsLargestRemainder(floors: seq<nat>, rems: seq<nat>, deficit: nat)
    requires |floors| == |rems| && deficit <= |rems|
    ensures IsLargestRemainder(floors, rems, deficit, Allocation(floors, rems, deficit))
  {
    RaisedInAllocation(floors, rems, deficit);
    var n, raised := |rems|, Order(rems)[..deficit];
    forall i: nat, j: nat | i in raised && j < n && j !in raised ensures Beats(rems, i, j) {
      EarlierBeatsLater(rems, deficit, i, j);
    }
  }

  lemma EarlierBeatsLater(rems: seq<nat>, deficit: nat, i: nat, j: nat)
    requires deficit <= |Order(rems)| && i in Order(rems)[..deficit]
    requires j < |rems| && j !in Order(rems)[..deficit]
    ensures Beats(rems, i, j)
  {
    OrderFacts(rems);
    var order := Order(rems);
    assert Upto(|rems|)[j] == j;
    assert j in Elements(order);
    var p :| 0 <= p < deficit && order[p] == i;
    var q := PositionAfter(order, deficit, j);
    assert BeatsIn(rems)(order[p], order[q]);
  }

  /** The specification leaves no freedom: two allocations that meet it are equal. */
  lemma AllocationUnique(floors: seq<nat>, rems: seq<nat>, deficit: nat, p: seq<nat>, q: seq<nat>)
    requires IsLargestRemainder(floors, rems, deficit, p)
    requires IsLargestRemainder(floors, rems, deficit, q)
    ensures p == q
  {
    var a, b := Raised(floors, p), Raised(floors, q);
    assert forall i, j :: i in a && j in b && i !in b && j !in a ==> Beats(rems, i, j) && Beats(rems, j, i);
    if a <= b {
      SubsetCardinality(a, b);
    } else {
      var i :| i in a && i !in b;
      SubsetCardinality(b, a);
    }
    assert a == b;
    forall i | 0 <= i < |p| ensures p[i] == q[i] {
      assert (i as nat) in a <==> (i as nat) in b;
    }
  }

  lemma SubsetCardinality(a: set<nat>, b: set<nat>)
    requires a <= b
    ensures |a| <= |b| && (a != b ==> |a| < |b|)
  {
    assert b == a + (b - a);
    if a != b {
      assert b - a != {};
    }
  }

  /** Raising the members of a set of indices raises the sum by its cardinality. */
  lemma {:induction false} RaisedSum(floors: seq<nat>, parts: seq<nat>)
    requires |floors| == |parts|
    requires forall i :: 0 <= i < |parts| ==> floors[i] <= parts[i] <= floors[i] + 1
    ensures Sum(parts) == Sum(floors) + |Raised(floors, parts)|
  {
    var n := |floors|;
    if n == 0 {
      assert Raised(floors, parts) == {};
    } else {
      var f, p := floors[..n - 1], parts[..n - 1];
      RaisedSum(f, p);
      if parts[n - 1] == floors[n - 1] + 1 {
        assert Raised(floors, parts) == Raised(f, p) + {n - 1};
      } else {
        assert Raised(floors, parts) == Raised(f, p);
      }
    }
  }

  ghost function Positive(rems: seq<nat>): set<nat> {
    set i: nat | i < |rems| && rems[i] > 0
  }

  /** When the deficit is at most the number of non-zero remainders, only those are raised. */
  lemma OnlyPositiveRaised(floors: seq<nat>, rems: seq<nat>, deficit: nat, parts: seq<nat>)
    requires IsLargestRemainder(floors, rems, deficit, parts)
    requires deficit <= |Positive(rems)|
    ensures Raised(floors, parts) <= Positive(rems)
  {
    var raised := Raised(floors, parts);
    if i :| i in raised && i !in Positive(rems) {
      assert forall j :: j in Positive(rems) && j !in raised ==> Beats(rems, i, j as nat);
      assert Positive(rems) <= raised;
      SubsetCardinality(Positive(rems) + {i}, raised);
    }
  }

  function Floors(nums: seq<nat>, divisor: nat): (r: seq<nat>)
    requires divisor > 0
    ensures |r| == |nums|
  {
    seq(|nums|, i requires 0 <= i < |nums| => nums[i] / divisor)
  }

  function Remainders(nums: seq<nat>, divisor: nat): (r: seq<nat>)
    requires divisor > 0
    ensures |r| == |nums| && forall i :: 0 <= i < |r| ==> r[i] < divisor
  {
    seq(|nums|, i requires 0 <= i < |nums| => nums[i] % divisor)
  }

  lemma {:induction false} DivisionSum(nums: seq<nat>, divisor: nat)
    requires divisor > 0
    ensures Sum(nums) == divisor * Sum(Floors(nums, divisor)) + Sum(Remainders(nums, divisor))
  {
    var n := |nums|;
    if n > 0 {
      DivisionSum(nums[..n - 1], divisor);
      var f, r := Floors(nums, divisor), Remainders(nums, divisor);
      assert f[..n - 1] == Floors(nums[..n - 1], divisor);
      assert r[..n - 1] == Remainders(nums[..n - 1], divisor);
      DivisionStep(nums[n - 1], divisor, Sum(f[..n - 1]));
    }
  }

  lemma DivisionStep(x: nat, divisor: nat, floorSum: int)
    requires divisor > 0
    ensures divisor * floorSum + x == divisor * (floorSum + x / divisor) + x % divisor
  {
    assert x == divisor * (x / divisor) + x % divisor;
  }

  lemma {:induction false} RemainderSumBound(rems: seq<nat>, divisor: nat)
    requires divisor > 0 && forall i :: 0 <= i < |rems| ==> rems[i] < divisor
    ensures 0 <= Sum(rems) <= |Positive(rems)| * (divisor - 1)
  {
    var n := |rems|;
    if n > 0 {
      var front := rems[..n - 1];
      RemainderSumBound(front, divisor);
      if rems[n - 1] > 0 {
        assert Positive(rems) == Positive(front) + {n - 1};
        assert (|Positive(front)| + 1) * (divisor - 1) == |Positive(front)| * (divisor - 1) + (divisor - 1);
      } else {
        assert Positive(rems) == Positive(front);
      }
    }
  }

  /** A target within half a divisor above, and less than one below, is reached by raising
      some of the parts with a non-zero remainder. */
  lemma {:induction false} DeficitInRange(nums: seq<nat>, divisor: nat, target: int)
    requires divisor > 0
    requires Sum(nums) - divisor < divisor * target <= Sum(nums) + divisor / 2
    ensures 0 <= target - Sum(Floors(nums, divisor)) <= |Positive(Remainders(nums, divisor))| <= |nums|
  {
    var f, rems := Sum(Floors(nums, divisor)), Remainders(nums, divisor);
    DivisionSum(nums, divisor);
    RemainderSumBound(rems, divisor);
    PositiveBound(rems);
    DeficitArithmetic(divisor, target, f, Sum(rems), |Positive(rems)|);
  }

  lemma DeficitArithmetic(d: int, target: int, floors: int, remainders: int, positive: nat)
    requires d > 0 && 0 <= remainders <= positive * (d - 1)
    requires d * floors + remainders - d < d * target <= d * floors + remainders + d / 2
    ensures 0 <= target - floors <= positive
  {
    var x := target - floors;
    assert d * target == d * floors + d * x;
    assert positive * (d - 1) == d * positive - positive;
    assert d * (positive + 1) == d * positive + d && d * -1 == -d;
    ProductOrder(d, -1, x);
    ProductOrder(d, x, positive + 1);
  }

  lemma ProductOrder(d: int, a: int, b: int)
    requires d > 0
    ensures d * a < d * b ==> a < b
  {
    if a >= b {
      assert d * a == d * b + d * (a - b);
    }
  }

  lemma PositiveBound(rems: seq<nat>)
    ensures |Positive(rems)| <= |rems|
  {
    var idx := Upto(|rems|);
    DistinctCardinality(idx);
    forall i | i in Positive(rems) ensures i in Elements(idx) {
      assert idx[i] == i;
    }
    SubsetCardinality(Positive(rems), Elements(idx));
  }

  /** What an allocation that only needs parts with a remainder is and adds up to. */
  lemma {:induction false} AllocationFacts(floors: seq<nat>, rems: seq<nat>, deficit: nat, parts: seq<nat>)
    requires |floors| == |rems| && deficit <= |Positive(rems)| <= |rems| && parts == Allocation(floors, rems, deficit)
    ensures IsLargestRemainder(floors, rems, deficit, parts)
    ensures Sum(parts) == Sum(floors) + deficit
    ensures Raised(floors, parts) <= Positive(rems)
  {
    AllocationIsLargestRemainder(floors, rems, deficit);
    RaisedSum(floors, parts);
    OnlyPositiveRaised(floors, rems, deficit, parts);
  }

  /** All guarantees of one allocation of `target` over `nums / divisor`. */
  lemma AllocationCloses(nums: seq<nat>, divisor: nat, target: int,
                         floors: seq<nat>, rems: seq<nat>, parts: seq<nat>)
    requires divisor > 0 && floors == Floors(nums, divisor) && rems == Remainders(nums, divisor)
    requires Sum(nums) - divisor < divisor * target <= Sum(nums) + divisor / 2
    requires target >= Sum(floors) ==> parts == Allocation(floors, rems, target - Sum(floors))
    ensures target >= Sum(floors)
    ensures IsLargestRemainder(floors, rems, target - Sum(floors), parts)
    ensures Sum(parts) == target
    ensures Raised(floors, parts) <= Positive(rems)
  {
    DeficitInRange(nums, divisor, target);
    AllocationFacts(floors, rems, target - Sum(floors), parts);
  }

  /** The loop both callers run: walk the order, stop when nothing is left to hand out. */
  method RaiseLargest(floors: seq<nat>, rems: seq<nat>, deficit: int) returns (parts: seq<nat>)
    requires |floors| == |rems|
    ensures deficit >= 0 ==> parts == Allocation(floors, rems, deficit)
    ensures deficit < 0 ==> parts == floors
  {
    OrderFacts(rems);
    var order := Order(rems);
    parts := floors;
    var left := deficit;
    var n := 0;
    while n < |order| && left > 0
      invariant 0 <= n <= |order|
      invariant deficit >= 0 ==> n <= deficit
      invariant deficit >= 0 ==> left == deficit - n
      invariant deficit < 0 ==> n == 0 && left == deficit
      invariant |parts| == |floors|
      invariant forall i :: 0 <= i < |parts| ==>
                  parts[i] == floors[i] + if i in order[..n] then 1 else 0
    {
      assert order[n] !in order[..n];
      assert order[..n + 1] == order[..n] + [order[n]];
      parts := parts[order[n] := parts[order[n]] + 1];
      left := left - 1;
      n := n + 1;
    }
    if deficit >= 0 {
      assert n == if deficit <= |order| then deficit else |order|;
      assert order[..|order|] == order;
      assert parts == Allocation(floors, rems, deficit);
    }
  }
}
