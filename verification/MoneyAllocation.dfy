/**
  `Money.Allocate` as it runs, over arrays of fixed-width integers, proved against `Allocation`. Every
  intermediate value is held in a type of the source's width, so overflow would not verify.
 */
module MoneyAllocation {
  import opened Options
  import opened Apportionment
  import opened Money

  const INT_MAX := 0x7fff_ffff

  /** Division as the source's language does it: towards zero. */
  function TruncatedQuotient(a: int, b: int): (q: int)
    requires b > 0
  {
    if a >= 0 then a / b else -((-a) / b)
  }

  /** The largest whole number of divisors at or below the dividend, for either sign. */
  function FloorDiv(dividend: int, divisor: int): (q: int)
    requires divisor > 0
    ensures q * divisor <= dividend < (q + 1) * divisor
  {
    var quotient := TruncatedQuotient(dividend, divisor);
    var remainder := dividend - quotient * divisor;
    TruncatedBounds(dividend, divisor);
    PlusOne(quotient, divisor);
    PlusOne(quotient - 1, divisor);
    if remainder != 0 && remainder < 0 then quotient - 1 else quotient
  }

  lemma TruncatedBounds(a: int, b: int)
    requires b > 0
    ensures -b < a - TruncatedQuotient(a, b) * b < b
  {
    if a >= 0 {
      DivMod(a, b);
    } else {
      DivMod(-a, b);
    }
  }

  lemma FloorDivIsFloor(dividend: int, divisor: int)
    requires divisor > 0
    ensures FloorDiv(dividend, divisor) == dividend / divisor
    ensures dividend - FloorDiv(dividend, divisor) * divisor == dividend % divisor
  {
    var q := FloorDiv(dividend, divisor);
    PlusOne(q, divisor);
    DivUnique(dividend, divisor, q, dividend - q * divisor);
  }

  /** What the arithmetic may assume once an amount and its ratios have been checked. */
  ghost predicate Checked(total: int, w: seq<Int32>, totalWeight: int) {
    && 0 <= total <= LONG_MAX && 0 < |w| <= MAX_ALLOCATION_PARTS
    && Weights(w) && totalWeight == Sum(w)
  }

  lemma QuotaFits(total: nat, w: seq<Int32>, i: nat)
    requires Checked(total, w, Sum(w)) && i < |w|
    ensures 0 <= Floors(total, w)[i] <= total
  {
    MemberBelowSum(w, i);
    QuotaBelowTotal(total, w[i], Sum(w));
  }

  lemma QuotaBelowTotal(total: nat, weight: nat, totalWeight: nat)
    requires weight <= totalWeight && totalWeight > 0
    ensures total * weight >= 0 && 0 <= (total * weight) / totalWeight <= total
  {
    var product, floor := total * weight, (total * weight) / totalWeight;
    MulMonotone(0, total, weight);
    MulMonotone(weight, totalWeight, total);
    DivMod(product, totalWeight);
    if floor > total {
      MulMonotone(total + 1, floor, totalWeight);
      PlusOne(total, totalWeight);
    }
  }

  method TotalWeight(weights: array<Int32>) returns (totalWeight: Int128)
    requires 0 < weights.Length <= MAX_ALLOCATION_PARTS && Weights(weights[..])
    ensures totalWeight == Sum(weights[..]) > 0
  {
    totalWeight := 0;
    for i := 0 to weights.Length
      invariant totalWeight == Sum(weights[..i]) && 0 <= totalWeight <= i * INT_MAX
    {
      SumGrows(weights[..], i + 1);
      assert weights[..][..i] == weights[..i] && weights[..][..i + 1] == weights[..i + 1];
      totalWeight := totalWeight + weights[i];
    }
    assert weights[..weights.Length] == weights[..];
  }

  /** One quota: the total times a weight, over the total weight. */
  method ExactQuota(total: Int128, weight: Int32, totalWeight: Int128) returns (floor: Int128, remainder: Int128)
    requires 0 <= total <= LONG_MAX && 0 < weight <= totalWeight
    ensures floor == (total * weight) / totalWeight && remainder == (total * weight) % totalWeight
    ensures 0 <= floor <= total
  {
    MulMonotone(0, total, weight);
    MulMonotone(total, LONG_MAX, weight);
    var numerator: Int128 := total * weight;
    FloorDivIsFloor(numerator, totalWeight);
    QuotaBelowTotal(total, weight, totalWeight);
    floor := FloorDiv(numerator, totalWeight);
    ProductBelow(floor, totalWeight, numerator);
    var whole: Int128 := floor * totalWeight;
    remainder := numerator - whole;
  }

  lemma ProductBelow(floor: nat, totalWeight: nat, numerator: nat)
    requires totalWeight > 0 && floor == numerator / totalWeight
    ensures 0 <= floor * totalWeight <= numerator
  {
    DivMod(numerator, totalWeight);
    MulMonotone(0, floor, totalWeight);
  }

  method ExactQuotas(total: Int128, weights: array<Int32>, totalWeight: Int128)
    returns (floors: array<Int128>, remainders: array<Int128>, floorSum: Int128)
    requires Checked(total, weights[..], totalWeight)
    ensures fresh(floors) && fresh(remainders) && floors != remainders
    ensures floors[..] == Floors(total, weights[..]) && remainders[..] == Remainders(total, weights[..])
    ensures floorSum == Sum(floors[..])
  {
    var count := weights.Length;
    floors, remainders, floorSum := new Int128[count], new Int128[count], 0;
    ghost var w: seq<Int32> := weights[..];
    ghost var fs, rs := Floors(total, w), Remainders(total, w);
    for i := 0 to count
      invariant floors[..i] == fs[..i] && remainders[..i] == rs[..i]
      invariant floorSum == Sum(fs[..i]) && 0 <= floorSum <= i * LONG_MAX
    {
      MemberBelowSum(w, i);
      var floor, remainder := ExactQuota(total, weights[i], totalWeight);
      floors[i], remainders[i] := floor, remainder;
      assert fs[i] == floor && rs[i] == remainder;
      SumGrows(fs, i + 1);
      floorSum := floorSum + floor;
    }
    TakeAll(fs);
    TakeAll(rs);
    TakeAll(floors[..]);
    TakeAll(remainders[..]);
    assert floors[..][..count] == floors[..count] && remainders[..][..count] == remainders[..count];
  }

  lemma TakeAll(s: seq<int>)
    ensures s[..|s|] == s
  {
  }

  /** One more unit for each of the first few indices of the order. */
  method GiveLeftover(ghost q: Quotas, floors: array<Int128>, order: seq<nat>, leftover: Int128)
    requires floors[..] == q.floors && Sorted(q, order) && Complete(order, |q.floors|)
    requires 0 <= leftover <= |order| && forall i :: 0 <= i < |q.floors| ==> q.floors[i] <= LONG_MAX
    modifies floors
    ensures floors[..] == SharesOf(q, leftover)
  {
    for k := 0 to leftover
      invariant Bumped(q, floors[..], order, k)
    {
      NextIsNew(q, order, k);
      floors[order[k]] := floors[order[k]] + 1;
      assert order[..k + 1] == order[..k] + [order[k]];
    }
    BumpedIsShares(q, floors[..], order, leftover);
  }

  lemma NextIsNew(q: Quotas, order: seq<nat>, k: nat)
    requires Sorted(q, order) && k < |order|
    ensures order[k] !in order[..k]
  {
    if order[k] in order[..k] {
      var a :| 0 <= a < k && order[a] == order[k];
      PrecedesIsTotal(q, order[a], order[k], order[k]);
    }
  }

  lemma CompleteIsLongEnough(order: seq<nat>, n: nat)
    requires Complete(order, n)
    ensures |order| >= n
  {
    forall i | i in Indices(n) ensures i in Places(order) {
      assert i in order;
    }
    SubsetSize(Indices(n), Places(order));
    PlacesAtMost(order);
  }

  lemma {:induction false} PlacesAtMost(order: seq<nat>)
    ensures |Places(order)| <= |order|
  {
    if order != [] {
      var n := |order| - 1;
      PlacesAtMost(order[..n]);
      assert order == order[..n] + [order[n]];
      assert Places(order) == Places(order[..n]) + {order[n]};
    }
  }

  /** The shares of a checked total, in minor units. */
  method Apportion(total: Int128, weights: array<Int32>) returns (floors: array<Int128>)
    requires 0 <= total <= LONG_MAX && 0 < weights.Length <= MAX_ALLOCATION_PARTS && Weights(weights[..])
    ensures fresh(floors) && Sum(weights[..]) > 0 && floors[..] == Shares(total, weights[..])
  {
    var totalWeight := TotalWeight(weights);
    ghost var w: seq<Int32> := weights[..];
    var remainders: array<Int128>;
    var floorSum: Int128;
    floors, remainders, floorSum := ExactQuotas(total, weights, totalWeight);
    LeftoverBelowPositives(total, w);
    var leftover: Int128 := total - floorSum;
    var q := Quotas(floors[..], remainders[..], totalWeight);
    assert q == QuotasOf(total, w);
    var order := Order(q);
    CompleteIsLongEnough(order, |w|);
    forall i | 0 <= i < |w| ensures q.floors[i] <= LONG_MAX {
      QuotaFits(total, w, i);
    }
    GiveLeftover(q, floors, order, leftover);
  }

  method CopyRatios(ratios: seq<Int32>) returns (weights: array<Int32>)
    ensures fresh(weights) && weights[..] == ratios
  {
    weights := new Int32[|ratios|];
    for i := 0 to |ratios|
      invariant weights[..i] == ratios[..i]
    {
      weights[i] := ratios[i];
    }
  }

  method AllPositive(weights: array<Int32>) returns (all: bool)
    ensures all <==> forall i :: 0 <= i < weights.Length ==> weights[i] > 0
  {
    for i := 0 to weights.Length
      invariant forall k :: 0 <= k < i ==> weights[k] > 0
    {
      if weights[i] <= 0 {
        return false;
      }
    }
    all := true;
  }

  method Allocate(m: Money, ratios: seq<Int32>) returns (r: Result<seq<Money>, MoneyError>)
    ensures r == Allocation(m, ratios)
  {
    var count := |ratios|;
    if count <= 0 {
      return Err(NoParts);
    }
    if count > MAX_ALLOCATION_PARTS {
      return Err(TooManyParts);
    }
    var weights := CopyRatios(ratios);
    var positive := AllPositive(weights);
    if !positive {
      return Err(NotPositive);
    }
    var exponent := MinorUnitExponent(m.currency);
    var isNegative := m.amount < 0.0;
    var minorUnits := ToMinorUnits(if isNegative then -m.amount else m.amount, exponent);
    if minorUnits.Err? {
      return Err(TooLarge);
    }
    assert minorUnits.value == Total(m);
    WeightsIffPositive(ratios);
    var floors := Apportion(minorUnits.value, weights);
    r := Convert(m, ratios, floors, isNegative, exponent);
  }

  /** The shares as money. An uninitialized currency is noticed only here, by the first share. */
  method Convert(m: Money, ghost ratios: seq<Int32>, floors: array<Int128>, isNegative: bool, exponent: Exponent)
    returns (r: Result<seq<Money>, MoneyError>)
    requires Refusal(m, ratios) == None || Refusal(m, ratios) == Some(UninitializedCurrency)
    requires Weights(ratios) && isNegative == (m.amount < 0.0)
    requires exponent == MinorUnitExponent(m.currency) && floors[..] == Shares(Total(m), ratios)
    ensures r == Allocation(m, ratios)
  {
    var result: seq<Money> := [];
    for i := 0 to floors.Length
      invariant |result| == i && (i > 0 ==> m.currency.Iso?)
      invariant forall k: nat :: k < i ==> 0 <= floors[k] <= LONG_MAX && result[k] == ShareOf(m, floors[k])
    {
      SharesFitTheTotal(Total(m), ratios, i);
      var minorUnits: Int64 := floors[i];
      if isNegative {
        minorUnits := -minorUnits;
      }
      var share := New(FromMinorUnits(minorUnits, exponent), m.currency);
      if share.Err? {
        AcceptedShare(m, minorUnits);
        return Err(share.error);
      }
      result := result + [share.value];
    }
    assert Allocation(m, ratios).Ok?;
    assert result == Allocation(m, ratios).value;
    return Ok(result);
  }

  lemma AcceptedShare(m: Money, minorUnits: Int64)
    requires New(FromMinorUnits(minorUnits, MinorUnitExponent(m.currency)), m.currency).Err?
    ensures m.currency.Uninitialized?
  {
    if m.currency.Iso? {
      MinorUnitsRoundTrip(minorUnits, m.currency);
    }
  }

  /** Equal parts are an allocation by ratios of one. */
  method AllocateEqually(m: Money, parts: int) returns (r: Result<seq<Money>, MoneyError>)
    ensures parts <= 0 ==> r == Err(NoParts)
    ensures parts > MAX_ALLOCATION_PARTS ==> r == Err(TooManyParts)
    ensures 0 < parts <= MAX_ALLOCATION_PARTS ==> r == Allocation(m, Ones(parts))
  {
    if parts <= 0 {
      return Err(NoParts);
    }
    if parts > MAX_ALLOCATION_PARTS {
      return Err(TooManyParts);
    }
    r := Allocate(m, Ones(parts));
  }
}
