/**
  Largest-remainder apportionment of a non-negative total by positive weights, with the tie-break
  order of `Money.Allocate`. The shares are defined in closed form, by each index's rank among the
  remainders; the algorithm that fills arrays and walks a sorted order is proved against that.
 */
module Apportionment {

  function Sum(s: seq<int>): (t: int) {
    if s == [] then 0 else Sum(s[..|s| - 1]) + s[|s| - 1]
  }

  /** A list of positive weights. That their sum is positive follows, and is said here once. */
  ghost predicate Weights(w: seq<int>) {
    w != [] && (forall i :: 0 <= i < |w| ==> w[i] > 0) && Sum(w) > 0
  }

  lemma {:induction false} SumPositive(w: seq<int>)
    requires forall i :: 0 <= i < |w| ==> w[i] > 0
    ensures Sum(w) >= |w|
  {
    if w != [] {
      SumPositive(w[..|w| - 1]);
    }
  }

  lemma WeightsIffPositive(w: seq<int>)
    ensures Weights(w) <==> w != [] && forall i :: 0 <= i < |w| ==> w[i] > 0
  {
    if w != [] && forall i :: 0 <= i < |w| ==> w[i] > 0 {
      SumPositive(w);
    }
  }

  // ----- Arithmetic, apart from everything else -----

  lemma MulMonotone(a: int, b: int, c: int)
    requires a <= b && c >= 0
    ensures a * c <= b * c
  {
  }

  lemma Distribute(a: int, f: int, weight: int, x: int, r: int, total: int, s: int, wi: int)
    requires a * weight + x == total * s && f * weight + r == total * wi
    ensures (a + f) * weight + (x + r) == total * (s + wi)
  {
  }

  lemma Below(a: int, b: nat, c: int)
    requires c > 0 && 0 <= a * c <= b * (c - 1)
    ensures 0 <= a && (a == 0 || a < b)
  {
    if a < 0 {
      MulMonotone(a, -1, c);
    }
    if a >= b {
      MulMonotone(b, a, c);
      MinusOne(b, c);
      if a > 0 {
        MulMonotone(1, a, c);
      }
    }
  }

  lemma MinusOne(b: int, c: int)
    ensures b * (c - 1) == b * c - b
  {
  }

  lemma QuotaBounds(f: int, extra: int, weight: int, r: int, quota: int)
    requires quota == f * weight + r && 0 <= r < weight && 0 <= extra <= 1 && (extra == 1 ==> r > 0)
    ensures quota - weight < (f + extra) * weight < quota + weight
    ensures r == 0 ==> (f + extra) * weight == quota
  {
    Distribute(0, f, weight, 0, 0, weight, 0, f);
    if extra == 1 {
      PlusOne(f, weight);
    }
  }

  lemma PlusOne(f: int, weight: int)
    ensures (f + 1) * weight == f * weight + weight
  {
  }

  lemma DivMod(x: int, d: int)
    requires d > 0
    ensures x == (x / d) * d + x % d && 0 <= x % d < d
    ensures x >= 0 ==> x / d >= 0
  {
  }

  // ----- Sets of indices -----

  function Indices(n: nat): (s: set<nat>)
    ensures |s| == n && forall i: nat :: i in s <==> i < n
  {
    if n == 0 then {} else Indices(n - 1) + {n - 1}
  }

  lemma SubsetSize<T>(a: set<T>, b: set<T>)
    requires a <= b
    ensures |a| <= |b|
  {
    assert b == a + (b - a);
  }

  function Positives(s: seq<int>): (ps: set<nat>)
    ensures forall i: nat :: i in ps <==> i < |s| && s[i] > 0
  {
    set i: nat | i < |s| && s[i] > 0
  }

  /** Values below `bound` add up to at most one less than `bound` for each positive one. */
  lemma {:induction false} SumBelow(s: seq<int>, bound: int)
    requires bound > 0 && forall i :: 0 <= i < |s| ==> 0 <= s[i] < bound
    ensures 0 <= Sum(s) <= |Positives(s)| * (bound - 1)
  {
    if s != [] {
      var n := |s| - 1;
      SumBelow(s[..n], bound);
      if s[n] > 0 {
        assert Positives(s) == Positives(s[..n]) + {n};
        PlusOne(|Positives(s[..n])|, bound - 1);
      } else {
        assert Positives(s) == Positives(s[..n]);
      }
    }
  }

  lemma SumGrows(s: seq<int>, n: nat)
    requires 0 < n <= |s|
    ensures Sum(s[..n]) == Sum(s[..n - 1]) + s[n - 1]
  {
    assert s[..n][..n - 1] == s[..n - 1];
  }

  // ----- Quotas: each share's exact value, as a floor and a remainder over the total weight -----

  datatype Quotas = Quotas(floors: seq<int>, remainders: seq<int>, weight: int)

  ghost predicate Valid(q: Quotas) {
    && q.weight > 0 && |q.floors| == |q.remainders|
    && forall i :: 0 <= i < |q.remainders| ==> 0 <= q.remainders[i] < q.weight && q.floors[i] >= 0
  }

  function Floors(total: nat, w: seq<int>): (fs: seq<int>)
    requires Sum(w) > 0
    ensures |fs| == |w|
  {
    seq(|w|, i requires 0 <= i < |w| => (total * w[i]) / Sum(w))
  }

  function Remainders(total: nat, w: seq<int>): (rs: seq<int>)
    requires Sum(w) > 0
    ensures |rs| == |w|
  {
    seq(|w|, i requires 0 <= i < |w| => (total * w[i]) % Sum(w))
  }

  function QuotasOf(total: nat, w: seq<int>): (q: Quotas)
    requires Sum(w) > 0
    ensures |q.floors| == |q.remainders| == |w| && q.weight == Sum(w)
  {
    Quotas(Floors(total, w), Remainders(total, w), Sum(w))
  }

  lemma QuotaIsExact(total: nat, w: seq<int>, i: nat)
    requires i < |w| && w[i] > 0 && Sum(w) > 0
    ensures 0 <= Remainders(total, w)[i] < Sum(w) && Floors(total, w)[i] >= 0
    ensures Floors(total, w)[i] * Sum(w) + Remainders(total, w)[i] == total * w[i]
    ensures Remainders(total, w)[i] == (total * w[i]) % Sum(w)
  {
    var product := total * w[i];
    MulMonotone(0, total, w[i]);
    DivMod(product, Sum(w));
  }

  lemma QuotasAreValid(total: nat, w: seq<int>)
    requires Weights(w)
    ensures Valid(QuotasOf(total, w))
  {
    forall i | 0 <= i < |w| ensures 0 <= Remainders(total, w)[i] < Sum(w) && Floors(total, w)[i] >= 0 {
      QuotaIsExact(total, w, i);
    }
  }

  lemma QuotasAreExact(total: nat, w: seq<int>)
    requires Weights(w)
    ensures Valid(QuotasOf(total, w))
    ensures forall i :: 0 <= i < |w| ==>
      QuotasOf(total, w).floors[i] * Sum(w) + QuotasOf(total, w).remainders[i] == total * w[i]
  {
    QuotasAreValid(total, w);
    forall i | 0 <= i < |w| ensures Floors(total, w)[i] * Sum(w) + Remainders(total, w)[i] == total * w[i] {
      QuotaIsExact(total, w, i);
    }
  }

  function Leftover(total: nat, q: Quotas): (l: int) {
    total - Sum(q.floors)
  }

  // ----- 0 <= leftover < count -----

  lemma {:induction false} QuotasAddUp(total: nat, w: seq<int>, q: Quotas, n: nat)
    requires |q.floors| == |q.remainders| == |w| && n <= |w|
    requires forall i :: 0 <= i < |w| ==> q.floors[i] * q.weight + q.remainders[i] == total * w[i]
    ensures Sum(q.floors[..n]) * q.weight + Sum(q.remainders[..n]) == total * Sum(w[..n])
  {
    if n > 0 {
      QuotasAddUp(total, w, q, n - 1);
      SumGrows(q.floors, n);
      SumGrows(q.remainders, n);
      SumGrows(w, n);
      Distribute(Sum(q.floors[..n - 1]), q.floors[n - 1], q.weight, Sum(q.remainders[..n - 1]), q.remainders[n - 1],
                 total, Sum(w[..n - 1]), w[n - 1]);
    }
  }

  lemma LeftoverTimesWeight(total: int, floors: int, weight: int, rest: int)
    requires floors * weight + rest == total * weight
    ensures (total - floors) * weight == rest
  {
  }

  /** There are fewer units left over than remainders above zero, so fewer than shares. */
  lemma LeftoverBelowPositives(total: nat, w: seq<int>)
    requires Weights(w)
    ensures var q := QuotasOf(total, w);
      && 0 <= Leftover(total, q) < |w|
      && (Leftover(total, q) == 0 || Leftover(total, q) < |Positives(q.remainders)|)
  {
    var q := QuotasOf(total, w);
    QuotasAreExact(total, w);
    QuotasAddUp(total, w, q, |w|);
    assert w[..|w|] == w && q.floors[..|w|] == q.floors && q.remainders[..|w|] == q.remainders;
    LeftoverIsSmall(total, q);
  }

  lemma LeftoverIsSmall(total: nat, q: Quotas)
    requires Valid(q) && q.floors != [] && Sum(q.floors) * q.weight + Sum(q.remainders) == total * q.weight
    ensures 0 <= Leftover(total, q) < |q.floors|
    ensures Leftover(total, q) == 0 || Leftover(total, q) < |Positives(q.remainders)|
  {
    LeftoverTimesWeight(total, Sum(q.floors), q.weight, Sum(q.remainders));
    SumBelow(q.remainders, q.weight);
    Below(Leftover(total, q), |Positives(q.remainders)|, q.weight);
    SubsetSize(Positives(q.remainders), Indices(|q.floors|));
  }

  // ----- The order of the leftover units, and the shares -----

  predicate IsExactMidpoint(remainder: int, weight: int) {
    weight % 2 == 0 && remainder * 2 == weight
  }

  predicate RoundsToEven(q: Quotas, i: nat)
    requires i < |q.floors| == |q.remainders|
  {
    IsExactMidpoint(q.remainders[i], q.weight) && q.floors[i] % 2 != 0
  }

  /** Larger remainder first; at an exact midpoint an odd floor first; then the lower index. */
  predicate Precedes(q: Quotas, i: nat, j: nat)
    requires i < |q.floors| && j < |q.floors| == |q.remainders|
  {
    || q.remainders[i] > q.remainders[j]
    || (q.remainders[i] == q.remainders[j]
        && ((RoundsToEven(q, i) && !RoundsToEven(q, j)) || (RoundsToEven(q, i) == RoundsToEven(q, j) && i < j)))
  }

  function Preceding(q: Quotas, i: nat): (js: set<nat>)
    requires i < |q.floors| == |q.remainders|
    ensures forall j: nat :: j in js <==> j < |q.floors| && Precedes(q, j, i)
  {
    set j: nat | j < |q.floors| && Precedes(q, j, i)
  }

  function Rank(q: Quotas, i: nat): (r: nat)
    requires i < |q.floors| == |q.remainders|
  {
    |Preceding(q, i)|
  }

  predicate GetsExtra(q: Quotas, leftover: int, i: nat)
    requires i < |q.floors| == |q.remainders|
  {
    Rank(q, i) < leftover
  }

  function SharesOf(q: Quotas, leftover: int): (ss: seq<int>)
    requires |q.floors| == |q.remainders|
    ensures |ss| == |q.floors|
    ensures forall i :: 0 <= i < |ss| ==> ss[i] == q.floors[i] + if GetsExtra(q, leftover, i) then 1 else 0
  {
    seq(|q.floors|, i requires 0 <= i < |q.floors| => q.floors[i] + if GetsExtra(q, leftover, i) then 1 else 0)
  }

  /** The shares of a total: each index's floor, and one more for the first `Leftover` in the order. */
  function Shares(total: nat, w: seq<int>): (ss: seq<int>)
    requires Sum(w) > 0
    ensures |ss| == |w|
  {
    var q := QuotasOf(total, w);
    SharesOf(q, Leftover(total, q))
  }

  // ----- Fairness -----

  lemma PrecedesIsTotal(q: Quotas, i: nat, j: nat, k: nat)
    requires i < |q.floors| && j < |q.floors| && k < |q.floors| == |q.remainders|
    ensures i != j ==> Precedes(q, i, j) != Precedes(q, j, i)
    ensures !Precedes(q, i, i)
    ensures Precedes(q, i, j) && Precedes(q, j, k) ==> Precedes(q, i, k)
  {
  }

  /** Whoever comes earlier ranks lower, so the leftover units go to the front of the order. */
  lemma EarlierRanksLower(q: Quotas, i: nat, j: nat)
    requires i < |q.floors| && j < |q.floors| == |q.remainders| && Precedes(q, i, j)
    ensures Rank(q, i) < Rank(q, j)
  {
    forall k | k in Preceding(q, i) ensures k in Preceding(q, j) {
      PrecedesIsTotal(q, k, i, j);
    }
    PrecedesIsTotal(q, i, j, i);
    SubsetSize(Preceding(q, i) + {i}, Preceding(q, j));
  }

  /** No index gets an extra unit while one with a strictly larger remainder does not. */
  lemma LargerRemainderFirst(q: Quotas, leftover: int, i: nat, j: nat)
    requires i < |q.floors| && j < |q.floors| == |q.remainders|
    requires q.remainders[i] > q.remainders[j] && GetsExtra(q, leftover, j)
    ensures GetsExtra(q, leftover, i)
  {
    EarlierRanksLower(q, i, j);
  }

  /** At an exact midpoint an odd floor is rounded up, to an even share, before an even one is. */
  lemma MidpointsRoundToEven(q: Quotas, leftover: int, i: nat, j: nat)
    requires i < |q.floors| && j < |q.floors| == |q.remainders|
    requires IsExactMidpoint(q.remainders[i], q.weight) && q.remainders[j] == q.remainders[i]
    requires q.floors[i] % 2 != 0 && q.floors[j] % 2 == 0 && GetsExtra(q, leftover, j)
    ensures GetsExtra(q, leftover, i) && SharesOf(q, leftover)[i] % 2 == 0
  {
    EarlierRanksLower(q, i, j);
  }

  /** Who gets an extra unit has a remainder above zero: an exact quota is given exactly. */
  lemma ExtraNeedsRemainder(total: nat, w: seq<int>, i: nat)
    requires Weights(w) && i < |w|
    ensures var q := QuotasOf(total, w); GetsExtra(q, Leftover(total, q), i) ==> q.remainders[i] > 0
  {
    var q := QuotasOf(total, w);
    QuotaIsExact(total, w, i);
    LeftoverBelowPositives(total, w);
    if GetsExtra(q, Leftover(total, q), i) && q.remainders[i] == 0 {
      SubsetSize(Positives(q.remainders), Preceding(q, i));
    }
  }

  /** Every share is its quota rounded down or up: never a whole unit away from it. */
  lemma ShareIsWithinItsQuota(total: nat, w: seq<int>, i: nat)
    requires Weights(w) && i < |w|
    ensures var share, quota := Shares(total, w)[i], total * w[i];
      && share >= 0
      && quota - Sum(w) < share * Sum(w) < quota + Sum(w)
      && (quota % Sum(w) == 0 ==> share * Sum(w) == quota)
  {
    var q := QuotasOf(total, w);
    QuotaIsExact(total, w, i);
    ExtraNeedsRemainder(total, w, i);
    ShareBounds(q, Leftover(total, q), i, total * w[i]);
  }

  lemma ShareBounds(q: Quotas, leftover: int, i: nat, quota: int)
    requires i < |q.floors| == |q.remainders| && 0 <= q.remainders[i] < q.weight && q.floors[i] >= 0
    requires quota == q.floors[i] * q.weight + q.remainders[i]
    requires GetsExtra(q, leftover, i) ==> q.remainders[i] > 0
    ensures SharesOf(q, leftover)[i] >= 0
    ensures quota - q.weight < SharesOf(q, leftover)[i] * q.weight < quota + q.weight
    ensures q.remainders[i] == 0 ==> SharesOf(q, leftover)[i] * q.weight == quota
  {
    var extra := if GetsExtra(q, leftover, i) then 1 else 0;
    QuotaBounds(q.floors[i], extra, q.weight, q.remainders[i], quota);
  }

  // ----- Conservation -----

  /** A set whose members have distinct ranks below a bound has at most that many members. */
  lemma {:induction false} DistinctRanks(q: Quotas, s: set<nat>, low: nat, high: nat)
    requires |q.floors| == |q.remainders| && low <= high
    requires forall i :: i in s ==> i < |q.floors| && low <= Rank(q, i) < high
    ensures |s| <= high - low
    decreases high
  {
    if low == high {
      assert s == {};
    } else if last :| last in s && Rank(q, last) == high - 1 {
      forall i | i in s - {last} ensures Rank(q, i) < high - 1 {
        if Rank(q, i) == high - 1 {
          SameRankSameIndex(q, i, last);
        }
      }
      DistinctRanks(q, s - {last}, low, high - 1);
    } else {
      DistinctRanks(q, s, low, high - 1);
    }
  }

  lemma SameRankSameIndex(q: Quotas, i: nat, j: nat)
    requires i < |q.floors| && j < |q.floors| == |q.remainders| && Rank(q, i) == Rank(q, j)
    ensures i == j
  {
    PrecedesIsTotal(q, i, j, i);
    if i != j {
      if Precedes(q, i, j) {
        EarlierRanksLower(q, i, j);
      } else {
        EarlierRanksLower(q, j, i);
      }
    }
  }

  function Winners(q: Quotas, leftover: int): (s: set<nat>)
    requires |q.floors| == |q.remainders|
    ensures forall i: nat :: i in s <==> i < |q.floors| && GetsExtra(q, leftover, i)
  {
    set i: nat | i < |q.floors| && GetsExtra(q, leftover, i)
  }

  /** Exactly as many indices get an extra unit as there are units left over. */
  lemma ExtraUnitsCount(q: Quotas, leftover: nat)
    requires |q.floors| == |q.remainders| && leftover <= |q.floors|
    ensures |Winners(q, leftover)| == leftover
  {
    var n := |q.floors|;
    var winners := Winners(q, leftover);
    var losers := Indices(n) - winners;
    forall i | i in losers ensures Rank(q, i) < n {
      PrecedesIsTotal(q, i, i, i);
      assert i !in Preceding(q, i);
      SubsetSize(Preceding(q, i) + {i}, Indices(n));
    }
    DistinctRanks(q, winners, 0, leftover);
    DistinctRanks(q, losers, leftover, n);
    assert Indices(n) == winners + losers;
  }

  lemma {:induction false} SumWithExtras(floors: seq<int>, shares: seq<int>, winners: set<nat>, n: nat)
    requires n <= |floors| == |shares|
    requires forall i: nat :: i < |floors| ==> shares[i] == floors[i] + if i in winners then 1 else 0
    ensures Sum(shares[..n]) == Sum(floors[..n]) + |winners * Indices(n)|
  {
    if n == 0 {
      assert winners * Indices(0) == {};
    } else {
      SumWithExtras(floors, shares, winners, n - 1);
      SumGrows(shares, n);
      SumGrows(floors, n);
      OneMoreIndex(winners, n);
    }
  }

  lemma OneMoreIndex(winners: set<nat>, n: nat)
    requires n > 0
    ensures |winners * Indices(n)| == |winners * Indices(n - 1)| + if n - 1 in winners then 1 else 0
  {
    var before, after := winners * Indices(n - 1), winners * Indices(n);
    assert after == if n - 1 in winners then before + {n - 1} else before;
  }

  lemma SharesOfAddUp(q: Quotas, leftover: nat)
    requires leftover <= |q.floors| == |q.remainders|
    ensures Sum(SharesOf(q, leftover)) == Sum(q.floors) + leftover
  {
    var shares, n := SharesOf(q, leftover), |q.floors|;
    ExtraUnitsCount(q, leftover);
    SumWithExtras(q.floors, shares, Winners(q, leftover), n);
    assert shares[..n] == shares && q.floors[..n] == q.floors;
    assert Winners(q, leftover) * Indices(n) == Winners(q, leftover);
  }

  /** The shares add up to the total: no unit is lost or gained. */
  lemma SharesAddUp(total: nat, w: seq<int>)
    requires Weights(w)
    ensures Sum(Shares(total, w)) == total
  {
    var q := QuotasOf(total, w);
    LeftoverBelowPositives(total, w);
    SharesOfAddUp(q, Leftover(total, q));
  }

  // ----- The shares without their order: the only fair ones -----

  /** One index is before another for a unit left over, said of the exact quotas `total * w[i] / Sum(w)`. */
  predicate ClaimsBefore(total: nat, w: seq<int>, i: nat, j: nat)
    requires i < |w| && j < |w| && Sum(w) > 0
  {
    var (d, x, y) := (Sum(w), total * w[i], total * w[j]);
    || x % d > y % d
    || (x % d == y % d && 2 * (x % d) == d && (x / d) % 2 == 1 && (y / d) % 2 == 0)
    || (x % d == y % d && (2 * (x % d) != d || (x / d) % 2 == (y / d) % 2) && i < j)
  }

  predicate RoundedUp(total: nat, w: seq<int>, ss: seq<int>, i: nat)
    requires i < |w| == |ss| && Sum(w) > 0
  {
    ss[i] == (total * w[i]) / Sum(w) + 1
  }

  /** Quotas rounded down or up that add up to the total, where none is rounded up before a better claim. */
  ghost predicate Apportioned(total: nat, w: seq<int>, ss: seq<int>)
    requires Sum(w) > 0
  {
    && |ss| == |w| && Sum(ss) == total
    && (forall i: nat :: i < |w| ==> ss[i] == (total * w[i]) / Sum(w) || RoundedUp(total, w, ss, i))
    && forall i: nat, j: nat :: i < |w| && j < |w| && ClaimsBefore(total, w, i, j) && RoundedUp(total, w, ss, j) ==>
         RoundedUp(total, w, ss, i)
  }

  lemma SharesAreApportioned(total: nat, w: seq<int>)
    requires Weights(w)
    ensures Apportioned(total, w, Shares(total, w))
  {
    var q, ss := QuotasOf(total, w), Shares(total, w);
    SharesAddUp(total, w);
    forall i: nat, j: nat | i < |w| && j < |w| && ClaimsBefore(total, w, i, j) && RoundedUp(total, w, ss, j)
      ensures RoundedUp(total, w, ss, i)
    {
      assert Precedes(q, i, j);
      EarlierRanksLower(q, i, j);
    }
  }

  function Ups(total: nat, w: seq<int>, ss: seq<int>): (up: set<nat>)
    requires |ss| == |w| && Sum(w) > 0
    ensures forall i: nat :: i in up <==> i < |w| && RoundedUp(total, w, ss, i)
  {
    set i: nat | i < |w| && RoundedUp(total, w, ss, i)
  }

  lemma UpsCount(total: nat, w: seq<int>, ss: seq<int>)
    requires Weights(w) && Apportioned(total, w, ss)
    ensures |Ups(total, w, ss)| == total - Sum(Floors(total, w))
  {
    var fs, n := Floors(total, w), |w|;
    SumWithExtras(fs, ss, Ups(total, w, ss), n);
    assert ss[..n] == ss && fs[..n] == fs;
    assert Ups(total, w, ss) * Indices(n) == Ups(total, w, ss);
  }

  lemma SameSize<T>(a: set<T>, b: set<T>)
    requires a <= b && |a| == |b|
    ensures a == b
  {
    assert b == a + (b - a);
  }

  /** Of two indices one claims before the other, so two apportionments cannot each round up one alone. */
  lemma NoneApart(total: nat, w: seq<int>, a: seq<int>, b: seq<int>, i: nat, j: nat)
    requires Weights(w) && Apportioned(total, w, a) && Apportioned(total, w, b) && i < |w| && j < |w|
    requires RoundedUp(total, w, a, i) && !RoundedUp(total, w, b, i) && RoundedUp(total, w, b, j)
    ensures RoundedUp(total, w, a, j)
  {
    assert i == j || ClaimsBefore(total, w, i, j) || ClaimsBefore(total, w, j, i);
  }

  lemma ApportionedIsUnique(total: nat, w: seq<int>, a: seq<int>, b: seq<int>)
    requires Weights(w) && Apportioned(total, w, a) && Apportioned(total, w, b)
    ensures a == b
  {
    var up, other := Ups(total, w, a), Ups(total, w, b);
    UpsCount(total, w, a);
    UpsCount(total, w, b);
    if i :| i in up && i !in other {
      forall j | j in other ensures j in up {
        NoneApart(total, w, a, b, i, j);
      }
      SameSize(other, up);
    } else {
      SameSize(up, other);
    }
    forall i: nat | i < |w| ensures a[i] == b[i] {
      assert i in up <==> i in other;
    }
  }

  /** There is exactly one fair apportionment, and the shares are it. */
  lemma SharesAreTheApportionment(total: nat, w: seq<int>, ss: seq<int>)
    requires Weights(w)
    ensures ss == Shares(total, w) <==> Apportioned(total, w, ss)
  {
    SharesAreApportioned(total, w);
    if Apportioned(total, w, ss) {
      ApportionedIsUnique(total, w, ss, Shares(total, w));
    }
  }

  /** Among equal remainders that no midpoint tells apart, a unit goes to the lower index first. */
  lemma TiesGoToTheLowerIndex(total: nat, w: seq<int>, i: nat, j: nat)
    requires Weights(w) && i < j < |w|
    requires (total * w[i]) % Sum(w) == (total * w[j]) % Sum(w)
    requires 2 * ((total * w[i]) % Sum(w)) != Sum(w) || ((total * w[i]) / Sum(w)) % 2 == ((total * w[j]) / Sum(w)) % 2
    ensures Shares(total, w)[j] == (total * w[j]) / Sum(w) + 1 ==> Shares(total, w)[i] == (total * w[i]) / Sum(w) + 1
  {
    LowerIndexClaims(total, w, i, j);
    ClaimIsMet(total, w, i, j);
  }

  lemma LowerIndexClaims(total: nat, w: seq<int>, i: nat, j: nat)
    requires i < j < |w| && Sum(w) > 0
    requires (total * w[i]) % Sum(w) == (total * w[j]) % Sum(w)
    requires 2 * ((total * w[i]) % Sum(w)) != Sum(w) || ((total * w[i]) / Sum(w)) % 2 == ((total * w[j]) / Sum(w)) % 2
    ensures ClaimsBefore(total, w, i, j)
  {
  }

  lemma ClaimIsMet(total: nat, w: seq<int>, i: nat, j: nat)
    requires Weights(w) && i < |w| && j < |w| && ClaimsBefore(total, w, i, j)
    ensures RoundedUp(total, w, Shares(total, w), j) ==> RoundedUp(total, w, Shares(total, w), i)
  {
    SharesAreApportioned(total, w);
  }

  // ----- Symmetries -----

  lemma DivUnique(x: int, d: int, quotient: int, r: int)
    requires d > 0 && x == quotient * d + r && 0 <= r < d
    ensures x / d == quotient && x % d == r
  {
    DivMod(x, d);
    if x / d < quotient {
      MulMonotone(x / d + 1, quotient, d);
      PlusOne(x / d, d);
    } else if x / d > quotient {
      MulMonotone(quotient + 1, x / d, d);
      PlusOne(quotient, d);
    }
  }

  lemma MulAssociates(a: int, b: int, c: int)
    ensures a * (b * c) == (a * b) * c && a * (b * c) == b * (a * c)
  {
  }

  lemma ScaledExactly(k: int, quotient: int, d: int, r: int, x: int)
    requires x == quotient * d + r
    ensures k * x == quotient * (k * d) + k * r
  {
    MulAssociates(k, quotient, d);
    assert k * x == k * (quotient * d) + k * r;
  }

  lemma ScaledBounds(k: int, r: int, d: int)
    requires k > 0 && 0 <= r < d
    ensures 0 <= k * r < k * d
  {
    MulMonotone(0, r, k);
    MulMonotone(r + 1, d, k);
    PlusOne(r, k);
  }

  lemma ScaledDivMod(x: int, d: int, k: int)
    requires d > 0 && k > 0
    ensures k * d > 0 && (k * x) / (k * d) == x / d && (k * x) % (k * d) == k * (x % d)
  {
    DivMod(x, d);
    ScaledBounds(k, x % d, d);
    ScaledExactly(k, x / d, d, x % d, x);
    DivUnique(k * x, k * d, x / d, k * (x % d));
  }

  function Scaled(w: seq<int>, k: int): (s: seq<int>)
    ensures |s| == |w|
  {
    seq(|w|, i requires 0 <= i < |w| => k * w[i])
  }

  lemma {:induction false} SumScaled(w: seq<int>, k: int)
    ensures Sum(Scaled(w, k)) == k * Sum(w)
  {
    if w != [] {
      var n := |w| - 1;
      SumScaled(w[..n], k);
      assert Scaled(w, k)[..n] == Scaled(w[..n], k);
    }
  }

  lemma ScaledQuotas(total: nat, w: seq<int>, k: nat)
    requires Weights(w) && k > 0 && Sum(Scaled(w, k)) == k * Sum(w) > 0
    ensures var q, p := QuotasOf(total, w), QuotasOf(total, Scaled(w, k));
      p.floors == q.floors && p.weight == k * q.weight
      && forall i :: 0 <= i < |w| ==> p.remainders[i] == k * q.remainders[i]
  {
    forall i | 0 <= i < |w|
      ensures Floors(total, Scaled(w, k))[i] == Floors(total, w)[i]
      ensures Remainders(total, Scaled(w, k))[i] == k * Remainders(total, w)[i]
    {
      MulAssociates(total, k, w[i]);
      ScaledDivMod(total * w[i], Sum(w), k);
    }
  }

  lemma ScaledCompares(a: int, b: int, k: int)
    requires k > 0
    ensures k * a > k * b <==> a > b
    ensures k * a == k * b <==> a == b
  {
    if a > b {
      MulMonotone(b + 1, a, k);
      PlusOne(b, k);
    } else if a < b {
      MulMonotone(a + 1, b, k);
      PlusOne(a, k);
    }
  }

  lemma ScaledMidpoint(remainder: int, weight: int, k: int)
    requires k > 0
    ensures IsExactMidpoint(k * remainder, k * weight) == IsExactMidpoint(remainder, weight)
  {
    MulAssociates(k, remainder, 2);
    ScaledCompares(remainder * 2, weight, k);
    if remainder * 2 == weight {
      assert k * weight == (k * remainder) * 2;
    }
  }

  /** Multiplying every weight by one positive factor changes no share. */
  lemma ScalingChangesNothing(total: nat, w: seq<int>, k: nat)
    requires Weights(w) && k > 0
    ensures Sum(Scaled(w, k)) > 0 && Shares(total, Scaled(w, k)) == Shares(total, w)
  {
    SumScaled(w, k);
    MulMonotone(1, Sum(w), k);
    ScaledQuotas(total, w, k);
    var q, p := QuotasOf(total, w), QuotasOf(total, Scaled(w, k));
    forall i: nat, j: nat | i < |w| && j < |w| ensures Precedes(p, i, j) == Precedes(q, i, j) {
      ScaledCompares(q.remainders[i], q.remainders[j], k);
      ScaledMidpoint(q.remainders[i], q.weight, k);
      ScaledMidpoint(q.remainders[j], q.weight, k);
    }
    forall i: nat | i < |w| ensures Rank(p, i) == Rank(q, i) {
      assert Preceding(p, i) == Preceding(q, i);
    }
  }

  function Ones(n: nat): (w: seq<int>)
    ensures |w| == n
  {
    seq(n, i requires 0 <= i < n => 1)
  }

  lemma {:induction false} SumOfEqual(s: seq<int>, c: int)
    requires forall i :: 0 <= i < |s| ==> s[i] == c
    ensures Sum(s) == c * |s|
  {
    if s != [] {
      SumOfEqual(s[..|s| - 1], c);
      PlusOne(|s| - 1, c);
    }
  }

  function EqualPart(total: nat, n: nat, i: nat): (part: nat)
    requires i < n
    ensures part <= total
  {
    DivMod(total, n);
    MulMonotone(1, n, total / n);
    total / n + if i < total % n then 1 else 0
  }

  /** Equal parts differ by at most one unit, and the larger ones are exactly the leading ones. */
  lemma EqualPartsLead(total: nat, n: nat, i: nat)
    requires i < n
    ensures Sum(Ones(n)) == n && Shares(total, Ones(n))[i] == EqualPart(total, n, i)
  {
    SumOfEqual(Ones(n), 1);
    var q := QuotasOf(total, Ones(n));
    EqualQuotas(total, n);
    SumOfEqual(q.floors, total / n);
    DivMod(total, n);
    EqualQuotasInOrder(q, i);
  }

  lemma EqualQuotas(total: nat, n: nat)
    requires n > 0 && Sum(Ones(n)) == n
    ensures var q := QuotasOf(total, Ones(n));
      forall j :: 0 <= j < n ==> q.floors[j] == total / n && q.remainders[j] == total % n
  {
  }

  lemma EqualQuotasInOrder(q: Quotas, i: nat)
    requires i < |q.floors| == |q.remainders|
    requires forall j, k :: 0 <= j < k < |q.floors| ==> q.floors[j] == q.floors[k] && q.remainders[j] == q.remainders[k]
    ensures Rank(q, i) == i
  {
    assert Preceding(q, i) == Indices(i);
  }

  // ----- The algorithm: sort the indices, then give one unit to each of the first few -----

  ghost predicate Sorted(q: Quotas, order: seq<nat>) {
    && |q.floors| == |q.remainders|
    && (forall a :: 0 <= a < |order| ==> order[a] < |q.floors|)
    && forall a, b :: 0 <= a < b < |order| ==> Precedes(q, order[a], order[b])
  }

  /** Where an index goes in an order. */
  method InsertionPoint(q: Quotas, order: seq<nat>, i: nat) returns (p: nat)
    requires i < |q.floors| && Sorted(q, order) && i !in order
    ensures p <= |order|
    ensures forall a :: 0 <= a < p ==> Precedes(q, order[a], i)
    ensures forall a :: p <= a < |order| ==> Precedes(q, i, order[a])
  {
    p := 0;
    while p < |order| && Precedes(q, order[p], i)
      invariant p <= |order|
      invariant forall a :: 0 <= a < p ==> Precedes(q, order[a], i)
    {
      p := p + 1;
    }
    forall a | p <= a < |order| ensures Precedes(q, i, order[a]) {
      PrecedesIsTotal(q, i, order[p], order[a]);
    }
  }

  predicate Complete(order: seq<nat>, n: nat) {
    (forall i :: i in order ==> i < n) && forall i: nat :: i < n ==> i in order
  }

  lemma InsertionKeepsOrder(q: Quotas, order: seq<nat>, i: nat, p: nat)
    requires i < |q.floors| && Sorted(q, order) && Complete(order, i) && p <= |order|
    requires forall a :: 0 <= a < p ==> Precedes(q, order[a], i)
    requires forall a :: p <= a < |order| ==> Precedes(q, i, order[a])
    ensures Sorted(q, order[..p] + [i] + order[p..]) && Complete(order[..p] + [i] + order[p..], i + 1)
  {
    var longer := order[..p] + [i] + order[p..];
    forall j | j in longer ensures j < i + 1 {
      assert j == i || j in order;
    }
    forall j: nat | j < i + 1 ensures j in longer {
      if j == i {
        assert longer[p] == i;
      } else {
        assert j in order;
        var a :| 0 <= a < |order| && order[a] == j;
        assert longer[if a < p then a else a + 1] == j;
      }
    }
  }

  /** Every index once, in the order of precedence. */
  method Order(q: Quotas) returns (order: seq<nat>)
    requires |q.floors| == |q.remainders|
    ensures Sorted(q, order) && Complete(order, |q.floors|)
  {
    order := [];
    for i := 0 to |q.floors|
      invariant Sorted(q, order) && Complete(order, i)
    {
      var p := InsertionPoint(q, order, i);
      InsertionKeepsOrder(q, order, i, p);
      order := order[..p] + [i] + order[p..];
    }
  }

  function Places(order: seq<nat>): (s: set<nat>)
    ensures forall i :: i in s <==> i in order
  {
    set i | i in order
  }

  lemma {:induction false} PlacesSize(order: seq<nat>)
    requires forall a, b :: 0 <= a < b < |order| ==> order[a] != order[b]
    ensures |Places(order)| == |order|
  {
    if order != [] {
      var n := |order| - 1;
      PlacesSize(order[..n]);
      assert order == order[..n] + [order[n]];
      assert Places(order) == Places(order[..n]) + {order[n]};
    }
  }

  /** A sorted order holds the index of rank k at place k. */
  lemma RankIsPlace(q: Quotas, order: seq<nat>, k: nat)
    requires Sorted(q, order) && Complete(order, |q.floors|) && k < |order|
    ensures Rank(q, order[k]) == k
  {
    forall a, b | 0 <= a < b < |order| ensures order[a] != order[b] {
      PrecedesIsTotal(q, order[a], order[b], order[b]);
    }
    forall j: nat | j < |q.floors| ensures j in Preceding(q, order[k]) <==> j in order[..k] {
      assert j in order;
      var a :| 0 <= a < |order| && order[a] == j;
      PrecedesIsTotal(q, j, order[k], j);
    }
    PlacesSize(order[..k]);
    assert Preceding(q, order[k]) == Places(order[..k]);
  }

  /** The floors with one unit added at each place of an order's front. */
  ghost predicate Bumped(q: Quotas, floors: seq<int>, order: seq<nat>, n: nat)
    requires n <= |order|
  {
    && |floors| == |q.floors| && Sorted(q, order)
    && forall i: nat :: i < |floors| ==> floors[i] == q.floors[i] + if i in order[..n] then 1 else 0
  }

  lemma BumpedIsShares(q: Quotas, floors: seq<int>, order: seq<nat>, n: nat)
    requires n <= |order| && Bumped(q, floors, order, n) && Complete(order, |q.floors|)
    ensures floors == SharesOf(q, n)
  {
    forall i: nat | i < |floors| ensures i in order[..n] <==> GetsExtra(q, n, i) {
      assert i in order;
      var k :| 0 <= k < |order| && order[k] == i;
      RankIsPlace(q, order, k);
      if i in order[..n] {
        var j :| 0 <= j < n && order[j] == i;
        RankIsPlace(q, order, j);
      }
    }
  }
}
