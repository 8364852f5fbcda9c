/**
  Amounts of money in the minor units of their currency (ISO 4217), and `Money.Allocate`. Decimals are
  reals: every value that passes the precision check and every share is an exact decimal.
 */
module Money {
  import opened Options
  import opened Apportionment

  const LONG_MAX := 0x7fff_ffff_ffff_ffff
  const INT128_MAX := 0x7fff_ffff_ffff_ffff_ffff_ffff_ffff_ffff
  const MAX_ALLOCATION_PARTS := 10_000

  // Integers of the source's widths: an operation that leaves its range does not verify.
  type Int32 = x: int | -0x8000_0000 <= x <= 0x7fff_ffff
  type Int64 = x: int | -LONG_MAX - 1 <= x <= LONG_MAX
  type Int128 = x: int | -INT128_MAX - 1 <= x <= INT128_MAX

  /** The exponents of the active ISO 4217 currencies. */
  type Exponent = e: nat | e == 0 || e == 2 || e == 3 || e == 4

  datatype Currency = Uninitialized | Iso(code: string, exponent: Exponent)

  datatype Money = Money(amount: real, currency: Currency)

  datatype MoneyError = UninitializedCurrency | TooPrecise | NoParts | TooManyParts | NotPositive | TooLarge

  function MinorUnitExponent(c: Currency): (e: Exponent) {
    match c
    case Uninitialized => 0
    case Iso(_, exponent) => exponent
  }

  function Pow10(e: Exponent): (p: int)
    ensures p > 0
  {
    if e == 0 then 1 else if e == 2 then 100 else if e == 3 then 1000 else 10_000
  }

  // ----- Conversions -----

  /** An amount counted in minor units. */
  function Minor(amount: real, e: Exponent): (units: real) {
    amount * Pow10(e) as real
  }

  /** An exact half goes to the even neighbour. */
  function RoundHalfEven(x: real): (n: int) {
    var rest := x - x.Floor as real;
    if rest < 0.5 || (rest == 0.5 && x.Floor % 2 == 0) then x.Floor else x.Floor + 1
  }

  /** It rounds to the nearest whole number, and of two equally near to the even one. */
  lemma RoundsToNearestEven(x: real, n: int)
    ensures RoundHalfEven(x) == n <==>
      && n as real - 0.5 <= x <= n as real + 0.5
      && (x == n as real - 0.5 || x == n as real + 0.5 ==> n % 2 == 0)
  {
    if n as real - 0.5 <= x <= n as real + 0.5 {
      assert n - 1 <= x.Floor <= n;
    }
  }

  function Truncate(x: real): (n: int) {
    if x >= 0.0 then x.Floor else -(-x).Floor
  }

  /** Rounding to `e` decimal places. */
  function Round(amount: real, e: Exponent): (r: real) {
    RoundHalfEven(Minor(amount, e)) as real / Pow10(e) as real
  }

  function New(amount: real, currency: Currency): (r: Result<Money, MoneyError>) {
    if currency.Uninitialized? then Err(UninitializedCurrency)
    else if Round(amount, currency.exponent) != amount then Err(TooPrecise)
    else Ok(Money(amount, currency))
  }

  ghost predicate IsWhole(x: real) {
    x.Floor as real == x
  }

  lemma DivideBack(x: real, y: real, p: real)
    requires p != 0.0
    ensures x / p == y <==> x == y * p
  {
    assert (x / p) * p == x;
    if x == y * p {
      assert (y * p) / p == y;
    }
  }

  lemma WholeIsFloor(x: real, n: int)
    ensures x == n as real ==> x.Floor == n
    ensures n <= x.Floor <==> n as real <= x
  {
  }

  lemma MinorIff(amount: real, units: int, e: Exponent)
    ensures Minor(amount, e) == units as real <==> amount == units as real / Pow10(e) as real
  {
    DivideBack(units as real, amount, Pow10(e) as real);
  }

  lemma WholeRounds(x: real)
    ensures RoundHalfEven(x) as real == x <==> IsWhole(x)
    ensures IsWhole(x) ==> Truncate(x) == x.Floor
  {
    WholeIsFloor(x, RoundHalfEven(x));
    WholeIsFloor(-x, -x.Floor);
  }

  /** The precision check accepts exactly the whole numbers of minor units. */
  lemma FitsIffWholeMinorUnits(amount: real, e: Exponent)
    ensures Round(amount, e) == amount <==> IsWhole(Minor(amount, e))
  {
    WholeRounds(Minor(amount, e));
    MinorIff(amount, RoundHalfEven(Minor(amount, e)), e);
  }

  /** `decimal.ToInt64`: drops a fraction, and throws when what is left does not fit. */
  function ToMinorUnits(amount: real, e: Exponent): (r: Result<Int64, MoneyError>) {
    var units := Truncate(Minor(amount, e));
    if -LONG_MAX - 1 <= units <= LONG_MAX then Ok(units) else Err(TooLarge)
  }

  function FromMinorUnits(units: Int64, e: Exponent): (amount: real) {
    units as real / Pow10(e) as real
  }

  /** Every number of minor units is an amount its currency accepts, and converts back to itself. */
  lemma MinorUnitsRoundTrip(units: Int64, currency: Currency)
    requires currency.Iso?
    ensures var amount := FromMinorUnits(units, currency.exponent);
      New(amount, currency) == Ok(Money(amount, currency)) && ToMinorUnits(amount, currency.exponent) == Ok(units)
  {
    var e, amount := currency.exponent, FromMinorUnits(units, currency.exponent);
    MinorIff(amount, units, e);
    WholeIsFloor(Minor(amount, e), units);
    WholeRounds(Minor(amount, e));
    FitsIffWholeMinorUnits(amount, e);
  }

  /** An accepted amount that has minor units is recovered from them exactly. */
  lemma AmountRoundTrip(amount: real, currency: Currency)
    requires New(amount, currency).Ok? && ToMinorUnits(amount, currency.exponent).Ok?
    ensures FromMinorUnits(ToMinorUnits(amount, currency.exponent).value, currency.exponent) == amount
  {
    var e := currency.exponent;
    FitsIffWholeMinorUnits(amount, e);
    WholeRounds(Minor(amount, e));
    MinorIff(amount, Minor(amount, e).Floor, e);
  }

  // ----- Allocation: what it gives -----

  function Abs(x: real): (r: real) {
    if x < 0.0 then -x else x
  }

  function Mirrored(share: int, m: Money): (units: int) {
    if m.amount < 0.0 then -share else share
  }

  function ShareOf(m: Money, share: int): (s: Money)
    requires 0 <= share <= LONG_MAX
  {
    Money(FromMinorUnits(Mirrored(share, m), MinorUnitExponent(m.currency)), m.currency)
  }

  /** How an allocation fails, in the order of its checks. */
  ghost function Refusal(m: Money, ratios: seq<Int32>): (e: Option<MoneyError>) {
    if ratios == [] then Some(NoParts)
    else if |ratios| > MAX_ALLOCATION_PARTS then Some(TooManyParts)
    else if exists i :: 0 <= i < |ratios| && ratios[i] <= 0 then Some(NotPositive)
    else if ToMinorUnits(Abs(m.amount), MinorUnitExponent(m.currency)).Err? then Some(TooLarge)
    else if m.currency.Uninitialized? then Some(UninitializedCurrency)
    else None
  }

  /** The whole amount in minor units, without its sign. */
  ghost function Total(m: Money): (t: nat)
    requires ToMinorUnits(Abs(m.amount), MinorUnitExponent(m.currency)).Ok?
  {
    AbsIsNotNegative(m.amount, MinorUnitExponent(m.currency));
    ToMinorUnits(Abs(m.amount), MinorUnitExponent(m.currency)).value
  }

  lemma AbsIsNotNegative(amount: real, e: Exponent)
    ensures Minor(Abs(amount), e) >= 0.0 && Truncate(Minor(Abs(amount), e)) == Minor(Abs(amount), e).Floor >= 0
  {
    ProductNotNegative(Abs(amount), Pow10(e) as real);
    WholeIsFloor(Minor(Abs(amount), e), 0);
  }

  lemma ProductNotNegative(x: real, y: real)
    requires x >= 0.0 && y >= 0.0
    ensures x * y >= 0.0
  {
  }

  lemma SharesFitTheTotal(total: nat, w: seq<int>, i: nat)
    requires Weights(w) && i < |w|
    ensures 0 <= Shares(total, w)[i] <= total
  {
    forall j: nat | j < |w| ensures Shares(total, w)[j] >= 0 {
      ShareIsWithinItsQuota(total, w, j);
    }
    SharesAddUp(total, w);
    MemberBelowSum(Shares(total, w), i);
  }

  lemma {:induction false} MemberBelowSum(s: seq<int>, i: nat)
    requires i < |s| && forall j :: 0 <= j < |s| ==> s[j] >= 0
    ensures s[i] <= Sum(s) && Sum(s) >= 0
  {
    var n := |s| - 1;
    if i < n {
      MemberBelowSum(s[..n], i);
    } else if n > 0 {
      MemberBelowSum(s[..n], n - 1);
    }
  }

  ghost predicate Accepted(m: Money, ratios: seq<Int32>) {
    Refusal(m, ratios) == None && Weights(ratios)
  }

  lemma NotRefusedIsAccepted(m: Money, ratios: seq<Int32>)
    requires Refusal(m, ratios) == None
    ensures Accepted(m, ratios)
  {
    forall i | 0 <= i < |ratios| ensures ratios[i] > 0 {
    }
    WeightsIffPositive(ratios);
  }

  ghost function ShareAt(m: Money, ratios: seq<Int32>, i: nat): (s: Money)
    requires Accepted(m, ratios) && i < |ratios|
  {
    SharesFitTheTotal(Total(m), ratios, i);
    ShareOf(m, Shares(Total(m), ratios)[i])
  }

  ghost function Allocation(m: Money, ratios: seq<Int32>): (r: Result<seq<Money>, MoneyError>)
    ensures r.Ok? <==> Refusal(m, ratios) == None
    ensures r.Ok? ==> Accepted(m, ratios) && |r.value| == |ratios|
    ensures r.Ok? ==> forall i: nat :: i < |ratios| ==> r.value[i] == ShareAt(m, ratios, i)
  {
    match Refusal(m, ratios)
    case Some(error) => Err(error)
    case None =>
      NotRefusedIsAccepted(m, ratios);
      Ok(seq(|ratios|, i requires 0 <= i < |ratios| => ShareAt(m, ratios, i)))
  }

  /** Every share is itself an amount that passes the precision check. */
  lemma SharesPassThePrecisionCheck(m: Money, ratios: seq<Int32>, i: nat)
    requires Allocation(m, ratios).Ok? && i < |ratios|
    ensures var share := Allocation(m, ratios).value[i]; New(share.amount, share.currency) == Ok(share)
  {
    NotRefusedIsAccepted(m, ratios);
    SharesFitTheTotal(Total(m), ratios, i);
    var share := Shares(Total(m), ratios)[i];
    MinorUnitsRoundTrip(Mirrored(share, m), m.currency);
  }

  // ----- Allocation: conservation in major units -----

  ghost function SumAmounts(ms: seq<Money>): (t: real) {
    if ms == [] then 0.0 else SumAmounts(ms[..|ms| - 1]) + ms[|ms| - 1].amount
  }

  lemma AddFractions(a: int, b: int, p: real)
    requires p != 0.0
    ensures a as real / p + b as real / p == (a + b) as real / p
    ensures (-a) as real / p == -(a as real / p)
  {
    DivideBack((a + b) as real, a as real / p + b as real / p, p);
    DivideBack((-a) as real, -(a as real / p), p);
  }

  lemma {:induction false} SumOfShares(units: seq<int>, ms: seq<Money>, sign: int, p: int)
    requires |units| == |ms| && p > 0 && (sign == 1 || sign == -1)
    requires forall i :: 0 <= i < |ms| ==> ms[i].amount == (sign * units[i]) as real / p as real
    ensures SumAmounts(ms) == (sign * Sum(units)) as real / p as real
  {
    if ms == [] {
    } else {
      var n := |ms| - 1;
      SumOfShares(units[..n], ms[..n], sign, p);
      AddFractions(sign * Sum(units[..n]), sign * units[n], p as real);
    }
  }

  function Sign(m: Money): (s: int) {
    if m.amount < 0.0 then -1 else 1
  }

  lemma ShareAmount(m: Money, ratios: seq<Int32>, i: nat)
    requires Accepted(m, ratios) && i < |ratios|
    ensures ShareAt(m, ratios, i).amount
         == (Sign(m) * Shares(Total(m), ratios)[i]) as real / Pow10(MinorUnitExponent(m.currency)) as real
  {
  }

  /** What is allocated adds up to the amount: nothing is lost and nothing is gained. */
  lemma AllocationConserves(m: Money, ratios: seq<Int32>)
    requires New(m.amount, m.currency) == Ok(m) && Allocation(m, ratios).Ok?
    ensures SumAmounts(Allocation(m, ratios).value) == m.amount
  {
    var units, ms := Shares(Total(m), ratios), Allocation(m, ratios).value;
    forall i | 0 <= i < |ms|
      ensures ms[i].amount == (Sign(m) * units[i]) as real / Pow10(m.currency.exponent) as real
    {
      ShareAmount(m, ratios, i);
    }
    SharesAddUp(Total(m), ratios);
    SumOfShares(units, ms, Sign(m), Pow10(m.currency.exponent));
    TotalIsTheAmount(m);
  }

  lemma TotalIsTheAmount(m: Money)
    requires New(m.amount, m.currency) == Ok(m) && ToMinorUnits(Abs(m.amount), m.currency.exponent).Ok?
    ensures (Sign(m) * Total(m)) as real / Pow10(m.currency.exponent) as real == m.amount
  {
    AbsFits(m);
    AmountRoundTrip(Abs(m.amount), m.currency);
    AddFractions(Total(m), 0, Pow10(m.currency.exponent) as real);
  }

  lemma AbsFits(m: Money)
    requires New(m.amount, m.currency) == Ok(m)
    ensures New(Abs(m.amount), m.currency).Ok?
  {
    var e := m.currency.exponent;
    FitsIffWholeMinorUnits(m.amount, e);
    FitsIffWholeMinorUnits(-m.amount, e);
    NegatedProduct(m.amount, Pow10(e) as real);
    WholeIsFloor(-Minor(m.amount, e), -Minor(m.amount, e).Floor);
  }

  lemma NegatedProduct(x: real, y: real)
    ensures (-x) * y == -(x * y)
  {
  }

  // ----- Allocation: symmetries -----

  function Negated(m: Money): (n: Money) {
    Money(-m.amount, m.currency)
  }

  /** A refund mirrors its charge: the same parties, the same shares, the opposite sign. */
  lemma AllocationMirrors(m: Money, ratios: seq<Int32>)
    ensures Refusal(Negated(m), ratios) == Refusal(m, ratios)
    ensures Allocation(m, ratios).Ok? ==>
      forall i :: 0 <= i < |ratios| ==> Allocation(Negated(m), ratios).value[i] == Negated(Allocation(m, ratios).value[i])
  {
    assert Abs(-m.amount) == Abs(m.amount);
    if Allocation(m, ratios).Ok? {
      NotRefusedIsAccepted(m, ratios);
      forall i | 0 <= i < |ratios|
        ensures Allocation(Negated(m), ratios).value[i] == Negated(Allocation(m, ratios).value[i])
      {
        MirroredShare(m, ratios, i);
      }
    }
  }

  lemma MirroredShare(m: Money, ratios: seq<Int32>, i: nat)
    requires Accepted(m, ratios) && Accepted(Negated(m), ratios) && i < |ratios|
    ensures ShareAt(Negated(m), ratios, i) == Negated(ShareAt(m, ratios, i))
  {
    assert Total(Negated(m)) == Total(m);
    var share, p := Shares(Total(m), ratios)[i], Pow10(MinorUnitExponent(m.currency)) as real;
    AddFractions(share, 0, p);
    if m.amount == 0.0 {
      SharesFitTheTotal(Total(m), ratios, i);
      assert share == 0;
    }
  }

  /** Multiplying every ratio by one positive factor changes nothing. */
  lemma AllocationScales(m: Money, ratios: seq<Int32>, k: nat)
    requires Allocation(m, ratios).Ok? && k > 0
    requires forall i :: 0 <= i < |ratios| ==> Scaled(ratios, k)[i] <= 0x7fff_ffff
    ensures Allocation(m, Scaled(ratios, k)) == Allocation(m, ratios)
  {
    NotRefusedIsAccepted(m, ratios);
    ScalingChangesNothing(Total(m), ratios, k);
    ScaledRatios(ratios, k);
    SameSharesSameAllocation(m, ratios, Scaled(ratios, k));
  }

  lemma ScaledRatios(ratios: seq<Int32>, k: nat)
    requires Weights(ratios) && k > 0
    ensures Weights(Scaled(ratios, k))
  {
    forall i | 0 <= i < |ratios| ensures Scaled(ratios, k)[i] > 0 {
      MulMonotone(1, ratios[i], k);
    }
    WeightsIffPositive(Scaled(ratios, k));
  }

  lemma SameSharesSameAllocation(m: Money, ratios: seq<Int32>, others: seq<Int32>)
    requires Accepted(m, ratios) && Weights(others) && |others| == |ratios|
    requires Shares(Total(m), others) == Shares(Total(m), ratios)
    ensures Allocation(m, others) == Allocation(m, ratios)
  {
    assert Refusal(m, others) == None;
    var all, one := Allocation(m, others).value, Allocation(m, ratios).value;
    forall i: nat | i < |ratios| ensures all[i] == one[i] {
      SameShare(m, ratios, others, i);
    }
    assert all == one;
  }

  lemma SameShare(m: Money, ratios: seq<Int32>, others: seq<Int32>, i: nat)
    requires Accepted(m, ratios) && Accepted(m, others) && |others| == |ratios| && i < |ratios|
    requires Shares(Total(m), others) == Shares(Total(m), ratios)
    ensures ShareAt(m, others, i) == ShareAt(m, ratios, i)
  {
  }

  /** Equal parts: the leading ones, and no others, carry one minor unit more. */
  lemma EqualPartsLeadInMoney(m: Money, parts: nat, i: nat)
    requires Allocation(m, Ones(parts)).Ok? && i < parts
    ensures Allocation(m, Ones(parts)).value[i] == ShareOf(m, EqualPart(Total(m), parts, i))
  {
    NotRefusedIsAccepted(m, Ones(parts));
    EqualPartsLead(Total(m), parts, i);
    SharesFitTheTotal(Total(m), Ones(parts), i);
  }

  // ----- Allocation: all of it, in plain arithmetic -----

  function TenTo(n: nat): (p: int) {
    if n == 0 then 1 else 10 * TenTo(n - 1)
  }

  lemma PowersOfTen(e: Exponent)
    ensures Pow10(e) == TenTo(e)
  {
    assert TenTo(2) == 10 * TenTo(1) == 100 && TenTo(3) == 10 * TenTo(2) && TenTo(4) == 10 * TenTo(3);
  }

  /** An allocation is made exactly for up to 10,000 positive ratios of an amount whose minor units fit 63 bits. */
  lemma AllocatesIff(m: Money, ratios: seq<Int32>)
    ensures Allocation(m, ratios).Ok? <==>
      && 0 < |ratios| <= 10_000 && (forall i :: 0 <= i < |ratios| ==> ratios[i] > 0)
      && m.currency.Iso?
      && (if m.amount < 0.0 then -m.amount else m.amount) * TenTo(m.currency.exponent) as real < 0x8000_0000_0000_0000 as real
  {
    PowersOfTen(MinorUnitExponent(m.currency));
    TooLargeIff(m);
    assert forall i :: 0 <= i < |ratios| && ratios[i] > 0 ==> !(ratios[i] <= 0);
  }

  /** An amount of the given number of minor units, with the amount's own sign. */
  predicate Counts(m: Money, units: int, share: Money) {
    && m.currency.Iso? && share.currency == m.currency
    && share.amount == (if m.amount < 0.0 then -units else units) as real / TenTo(m.currency.exponent) as real
  }

  lemma AmountCounts(m: Money)
    requires New(m.amount, m.currency) == Ok(m) && ToMinorUnits(Abs(m.amount), m.currency.exponent).Ok?
    ensures Counts(m, Total(m), m)
  {
    PowersOfTen(m.currency.exponent);
    TotalIsTheAmount(m);
  }

  lemma ShareCountsUnits(m: Money, ratios: seq<Int32>, i: nat)
    requires m.currency.Iso? && Accepted(m, ratios) && i < |ratios|
    ensures Counts(m, Shares(Total(m), ratios)[i], ShareAt(m, ratios, i))
  {
    PowersOfTen(m.currency.exponent);
    ShareAmount(m, ratios, i);
  }

  /**
    The whole result, without the algorithm: the amount is so many minor units, and each share so many as the one
    fair apportionment of them says.
   */
  lemma AllocationIsTheApportionment(m: Money, ratios: seq<Int32>, ss: seq<int>, i: nat)
    requires New(m.amount, m.currency) == Ok(m) && Allocation(m, ratios).Ok? && i < |ratios|
    ensures Sum(ratios) > 0 && Counts(m, Total(m), m)
    ensures Apportioned(Total(m), ratios, ss) ==> Counts(m, ss[i], Allocation(m, ratios).value[i])
  {
    NotRefusedIsAccepted(m, ratios);
    AmountCounts(m);
    SharesAreTheApportionment(Total(m), ratios, ss);
    ShareCountsUnits(m, ratios, i);
  }

  lemma SameCount(m: Money, a: int, b: int, share: Money)
    requires Counts(m, a, share) && Counts(m, b, share)
    ensures a == b
  {
    PowersOfTen(m.currency.exponent);
    var (x, y) := if m.amount < 0.0 then (-a, -b) else (a, b);
    MinorIff(share.amount, x, m.currency.exponent);
    MinorIff(share.amount, y, m.currency.exponent);
  }

  lemma ShareCounts(m: Money, ratios: seq<Int32>, i: nat, units: int)
    requires New(m.amount, m.currency) == Ok(m) && Allocation(m, ratios).Ok? && i < |ratios|
    ensures Sum(ratios) > 0 && (Counts(m, units, Allocation(m, ratios).value[i]) <==> units == Shares(Total(m), ratios)[i])
  {
    NotRefusedIsAccepted(m, ratios);
    var ss := Shares(Total(m), ratios);
    SharesAreApportioned(Total(m), ratios);
    AllocationIsTheApportionment(m, ratios, ss, i);
    if Counts(m, units, Allocation(m, ratios).value[i]) {
      SameCount(m, units, ss[i], Allocation(m, ratios).value[i]);
    }
  }

  /** Of two shares whose exact quotas have one remainder, not told apart at a midpoint, the earlier is raised first. */
  lemma EarlierShareIsRaisedFirst(m: Money, ratios: seq<Int32>, i: nat, j: nat)
    requires New(m.amount, m.currency) == Ok(m) && Allocation(m, ratios).Ok? && i < j < |ratios| && Sum(ratios) > 0
    requires (Total(m) * ratios[i]) % Sum(ratios) == (Total(m) * ratios[j]) % Sum(ratios)
    requires 2 * ((Total(m) * ratios[i]) % Sum(ratios)) != Sum(ratios)
      || ((Total(m) * ratios[i]) / Sum(ratios)) % 2 == ((Total(m) * ratios[j]) / Sum(ratios)) % 2
    ensures Counts(m, (Total(m) * ratios[j]) / Sum(ratios) + 1, Allocation(m, ratios).value[j]) ==>
      Counts(m, (Total(m) * ratios[i]) / Sum(ratios) + 1, Allocation(m, ratios).value[i])
  {
    NotRefusedIsAccepted(m, ratios);
    ShareCounts(m, ratios, i, (Total(m) * ratios[i]) / Sum(ratios) + 1);
    ShareCounts(m, ratios, j, (Total(m) * ratios[j]) / Sum(ratios) + 1);
    TiesGoToTheLowerIndex(Total(m), ratios, i, j);
  }

  // ----- Allocation: limits -----

  /** Within the limits every product, sum and share stays inside the integers that hold it. */
  lemma AllocationNeverOverflows(m: Money, ratios: seq<Int32>, i: nat)
    requires Accepted(m, ratios) && i < |ratios|
    ensures 0 < Sum(ratios) <= MAX_ALLOCATION_PARTS * 0x7fff_ffff
    ensures 0 <= Total(m) * ratios[i] <= LONG_MAX * 0x7fff_ffff <= INT128_MAX
    ensures 0 <= Shares(Total(m), ratios)[i] <= LONG_MAX
  {
    SumBounded(ratios, 0x7fff_ffff);
    MulMonotone(|ratios|, MAX_ALLOCATION_PARTS, 0x7fff_ffff);
    MulMonotone(0, Total(m), ratios[i]);
    MulMonotone(Total(m), LONG_MAX, ratios[i]);
    SharesFitTheTotal(Total(m), ratios, i);
  }

  lemma {:induction false} SumBounded(s: seq<int>, bound: nat)
    requires forall i :: 0 <= i < |s| ==> s[i] <= bound
    ensures Sum(s) <= |s| * bound
  {
    if s != [] {
      SumBounded(s[..|s| - 1], bound);
      PlusOne(|s| - 1, bound);
    }
  }

  /** The least `long` has minor units that fit, yet it is refused: the amount is negated first. */
  lemma LeastLongIsRefused(code: string, ratios: seq<Int32>)
    requires ratios == [1]
    ensures var m := Money((-LONG_MAX - 1) as real, Iso(code, 0));
      && New(m.amount, m.currency) == Ok(m)
      && ToMinorUnits(m.amount, 0) == Ok(-LONG_MAX - 1)
      && Allocation(m, ratios) == Err(TooLarge)
  {
    var least := (-LONG_MAX - 1) as real;
    FitsIffWholeMinorUnits(least, 0);
    WholeIsFloor(least, -LONG_MAX - 1);
    WholeIsFloor(-least, LONG_MAX + 1);
  }

  /** An amount is too large exactly when its minor units, without their sign, pass the largest `long`. */
  lemma TooLargeIff(m: Money)
    ensures ToMinorUnits(Abs(m.amount), MinorUnitExponent(m.currency)) == Err(TooLarge)
       <==> Minor(Abs(m.amount), MinorUnitExponent(m.currency)) >= (LONG_MAX + 1) as real
  {
    var e := MinorUnitExponent(m.currency);
    AbsIsNotNegative(m.amount, e);
    WholeIsFloor(Minor(Abs(m.amount), e), LONG_MAX + 1);
  }
}
