/**
 Platform fees (`services/fees.js`) in exact stroop arithmetic: the breakdown of one payment, and
 what a batch pays out and deposits.
 */
module Fees {
  import opened Wrappers

  const BPS: int := 10000
  const FALLBACK_PLATFORM_FEE_BPS: nat := 250

  /** The active fee configuration of an asset; amounts in stroops. */
  datatype FeeConfig = FeeConfig(bps: nat, minFee: Option<nat>, maxFee: Option<nat>)

  /** What `getActiveConfig` answers: a row, no row, or an error. */
  datatype Lookup = Found(config: FeeConfig) | Absent | Unavailable

  datatype Breakdown = Breakdown(gross: int, bps: nat, fee: int, net: int, stellarBaseFee: Option<int>)

  /** `toFixed` of a non-negative number given in ten-thousandths: to the nearest, halves up. */
  function ToFixed(tenThousandths: int): int {
    (2 * tenThousandths + BPS) / (2 * BPS)
  }

  /** Math.min(gross, maxFee, Math.max(minFee, gross * feeBps / 10000)), in ten-thousandths of a stroop. */
  function Clamped(c: FeeConfig, gross: int): int {
    var low := Max(if c.minFee.Some? then c.minFee.value * BPS else 0, gross * c.bps);
    var capped := if c.maxFee.Some? then Min(c.maxFee.value * BPS, low) else low;
    Min(gross * BPS, capped)
  }

  function Fee(c: FeeConfig, gross: int): int {
    ToFixed(Clamped(c, gross))
  }

  function InForce(found: Lookup): FeeConfig {
    if found.Found? then found.config else FeeConfig(FALLBACK_PLATFORM_FEE_BPS, None, None)
  }

  function BuildFeeBreakdown(gross: int, found: Lookup, feeCharged: Option<int>): Breakdown {
    var c := InForce(found);
    var fee := Fee(c, gross);
    Breakdown(gross, c.bps, fee, gross - fee, feeCharged)
  }

  function WithStellarFee(b: Breakdown, feeCharged: Option<int>): Breakdown {
    b.(stellarBaseFee := feeCharged)
  }

  // ---------------------------------------------------------------- Rounding

  /** Rounding to the nearest: the error is at most half, and a half goes up. */
  lemma ToFixedIsNearest(x: int)
    ensures x - 5000 < ToFixed(x) * 10000 <= x + 5000
  {
    var q, r := ToFixed(x), (2 * x + BPS) % (2 * BPS);
    assert 2 * x + BPS == 2 * BPS * q + r;
  }

  /** Rounding grows with its argument, and no faster than whole units do. */
  lemma ToFixedGrows(x: int, y: int, d: int)
    requires x <= y <= x + d * BPS
    ensures ToFixed(x) <= ToFixed(y) <= ToFixed(x) + d
  {
    ToFixedIsNearest(x);
    ToFixedIsNearest(y);
  }

  lemma ToFixedOfWhole(n: int)
    ensures ToFixed(n * BPS) == n
  {
    ToFixedIsNearest(n * BPS);
  }

  // ---------------------------------------------------------------- One payment

  lemma ClampedBounds(c: FeeConfig, gross: int)
    requires gross >= 0
    ensures 0 <= Clamped(c, gross) <= gross * BPS
    ensures c.maxFee.Some? ==> Clamped(c, gross) <= c.maxFee.value * BPS
  {
    assert gross * c.bps >= 0;
  }

  /** Adding the network fee afterwards is the same as building the breakdown with it. */
  lemma StellarFeeCommutes(gross: int, found: Lookup, feeCharged: Option<int>)
    ensures WithStellarFee(BuildFeeBreakdown(gross, found, None), feeCharged) == BuildFeeBreakdown(gross, found, feeCharged)
  {
  }

  /** Nothing is lost or made, also once the network fee is added: fee and net add up, and neither is negative. */
  lemma BreakdownBalances(gross: nat, found: Lookup, feeCharged: Option<int>)
    ensures var b := BuildFeeBreakdown(gross, found, feeCharged);
            && b == WithStellarFee(BuildFeeBreakdown(gross, found, None), feeCharged)
            && b.fee + b.net == gross == b.gross
            && 0 <= b.fee <= gross && 0 <= b.net <= gross
            && (InForce(found).maxFee.Some? ==> b.fee <= InForce(found).maxFee.value)
  {
    var c := InForce(found);
    ClampedBounds(c, gross);
    ToFixedIsNearest(Clamped(c, gross));
    StellarFeeCommutes(gross, found, feeCharged);
  }

  /** The fee is the rounded rate, moved to the minimum, the maximum or the amount where it lies outside. */
  lemma FeeIsClampedRate(c: FeeConfig, gross: nat)
    ensures var rate := ToFixed(gross * c.bps);
            var raised := Max(if c.minFee.Some? then c.minFee.value else 0, rate);
            Fee(c, gross) == Min(gross, if c.maxFee.Some? then Min(c.maxFee.value, raised) else raised)
  {
    var low := if c.minFee.Some? then c.minFee.value else 0;
    var rate := gross * c.bps;
    ToFixedOfMax(low, rate);
    var raised := Max(low * BPS, rate);
    if c.maxFee.Some? {
      ToFixedOfMin(c.maxFee.value, raised);
      ToFixedOfMin(gross, Min(c.maxFee.value * BPS, raised));
    } else {
      ToFixedOfMin(gross, raised);
    }
  }

  /**
   The configuration that counts: the one found, with its rate, minimum and maximum, and otherwise
   2.5 percent without either.
   */
  lemma FeeOfLookup(gross: nat, found: Lookup, feeCharged: Option<int>)
    ensures var b := BuildFeeBreakdown(gross, found, feeCharged);
            match found
            case Found(c) => b.bps == c.bps && b.fee == Fee(c, gross)
            case _ => b.bps == 250 && b.fee == ToFixed(gross * 250)
    ensures BuildFeeBreakdown(gross, found, feeCharged).stellarBaseFee == feeCharged
  {
    FeeIsClampedRate(InForce(found), gross);
    if !found.Found? { ToFixedIsNearest(gross * 250); }
  }

  lemma ToFixedOfMax(n: int, x: int)
    ensures ToFixed(Max(n * BPS, x)) == Max(n, ToFixed(x))
  {
    ToFixedIsNearest(x);
    ToFixedOfWhole(n);
  }

  lemma ToFixedOfMin(n: int, x: int)
    ensures ToFixed(Min(n * BPS, x)) == Min(n, ToFixed(x))
  {
    ToFixedIsNearest(x);
    ToFixedOfWhole(n);
  }

  lemma ClampedGrows(c: FeeConfig, g: nat, h: nat)
    requires g <= h
    ensures Clamped(c, g) <= Clamped(c, h) <= Clamped(c, g) + (h - g) * BPS
  {
    RatesGrow(c.bps, g, h);
  }

  lemma RatesGrow(bps: nat, g: nat, h: nat)
    requires g <= h
    ensures g * bps <= h * bps
    ensures bps <= BPS ==> h * bps <= g * bps + (h - g) * BPS
    ensures bps > BPS ==> g * bps >= g * BPS && h * bps >= h * BPS
  {
    Distribute(g, h - g, bps);
    assert (h - g) * bps >= 0;
    if bps <= BPS {
      assert (h - g) * bps <= (h - g) * BPS;
    } else {
      assert g * bps >= g * BPS && h * bps >= h * BPS;
    }
  }

  /** Sending more never costs a smaller fee and never delivers less, whatever the configuration. */
  lemma FeeAndNetGrow(found: Lookup, g: nat, h: nat)
    requires g <= h
    ensures BuildFeeBreakdown(g, found, None).fee <= BuildFeeBreakdown(h, found, None).fee
    ensures BuildFeeBreakdown(g, found, None).net <= BuildFeeBreakdown(h, found, None).net
  {
    var c := InForce(found);
    ClampedGrows(c, g, h);
    ToFixedGrows(Clamped(c, g), Clamped(c, h), h - g);
  }

  // ---------------------------------------------------------------- Many payments

  function Sum(amounts: seq<int>): int {
    if amounts == [] then 0 else Sum(amounts[..|amounts| - 1]) + amounts[|amounts| - 1]
  }

  function TotalFee(c: FeeConfig, amounts: seq<nat>): int {
    if amounts == [] then 0
    else TotalFee(c, amounts[..|amounts| - 1]) + Fee(c, amounts[|amounts| - 1])
  }

  function TotalNet(c: FeeConfig, amounts: seq<nat>): int {
    if amounts == [] then 0
    else TotalNet(c, amounts[..|amounts| - 1]) + (amounts[|amounts| - 1] - Fee(c, amounts[|amounts| - 1]))
  }

  lemma {:induction false} TotalsBalance(c: FeeConfig, amounts: seq<nat>)
    ensures TotalFee(c, amounts) + TotalNet(c, amounts) == Sum(amounts)
    ensures TotalFee(c, amounts) >= 0
  {
    if amounts != [] {
      TotalsBalance(c, amounts[..|amounts| - 1]);
      BreakdownBalances(amounts[|amounts| - 1], Found(c), None);
    }
  }

  predicate Unclamped(c: FeeConfig) {
    c.minFee.None? && c.maxFee.None? && c.bps <= BPS
  }

  /** The products behind the rates, added up. */
  function TotalRate(bps: nat, amounts: seq<nat>): int {
    if amounts == [] then 0
    else TotalRate(bps, amounts[..|amounts| - 1]) + amounts[|amounts| - 1] * bps
  }

  lemma {:induction false} RateOfSum(bps: nat, amounts: seq<nat>)
    ensures 0 <= Sum(amounts) && TotalRate(bps, amounts) == Sum(amounts) * bps
  {
    if amounts != [] {
      var rest, last := amounts[..|amounts| - 1], amounts[|amounts| - 1];
      RateOfSum(bps, rest);
      Distribute(Sum(rest), last, bps);
    }
  }

  lemma Distribute(a: int, b: int, k: int)
    ensures (a + b) * k == a * k + b * k
  {
  }

  lemma FeeError(c: FeeConfig, gross: nat, rate: int)
    requires Unclamped(c) && rate == gross * c.bps
    ensures -BPS < 2 * (Fee(c, gross) * BPS - rate) <= BPS
  {
    RateIsWithin(gross, c.bps);
    ToFixedIsNearest(rate);
  }

  lemma RateIsWithin(gross: nat, bps: nat)
    requires bps <= BPS
    ensures 0 <= gross * bps <= gross * BPS
  {
  }

  lemma {:induction false} SplitError(c: FeeConfig, amounts: seq<nat>)
    requires Unclamped(c)
    ensures -BPS * |amounts| <= 2 * (TotalFee(c, amounts) * BPS - TotalRate(c.bps, amounts)) <= BPS * |amounts|
  {
    if amounts != [] {
      var last := amounts[|amounts| - 1];
      SplitError(c, amounts[..|amounts| - 1]);
      FeeError(c, last, last * c.bps);
    }
  }

  /** Splitting an amount in n parts moves the total fee by at most (n + 1) / 2 stroops. */
  lemma SplittingIsNearlyNeutral(c: FeeConfig, amounts: seq<nat>)
    requires Unclamped(c)
    ensures Sum(amounts) >= 0
    ensures -(|amounts| + 1) <= 2 * (TotalFee(c, amounts) - Fee(c, Sum(amounts))) <= |amounts| + 1
  {
    RateOfSum(c.bps, amounts);
    SplitError(c, amounts);
    FeeError(c, Sum(amounts), TotalRate(c.bps, amounts));
  }

  function Repeat(amount: nat, n: nat): seq<nat> {
    if n == 0 then [] else Repeat(amount, n - 1) + [amount]
  }

  /** The growth with n is real: at 0.5 %, n payments of 100 stroops cost n stroops, one of 100 n half of it. */
  lemma {:induction false} SplittingCanDoubleTheFee(n: nat)
    ensures var c := FeeConfig(50, None, None);
            && Sum(Repeat(100, n)) == 100 * n && TotalFee(c, Repeat(100, n)) == n
            && Fee(c, 100 * n) == (n + 1) / 2
  {
    if n > 0 {
      SplittingCanDoubleTheFee(n - 1);
      assert Repeat(100, n)[..|Repeat(100, n)| - 1] == Repeat(100, n - 1);
    }
  }

  // ---------------------------------------------------------------- Deposits

  datatype Deposit = Deposit(asset: string, amount: nat)

  /** The fee distributor contract, as far as deposits go. */
  class FeeDistributor {
    var deposits: seq<Deposit>

    constructor ()
      ensures deposits == []
    {
      deposits := [];
    }

    /** Deposits a positive fee; a failed deposit is logged and forgotten. */
    method CollectPlatformFee(asset: string, fee: int, answers: bool)
      modifies this
      ensures asset != "" && fee > 0 && answers ==> deposits == old(deposits) + [Deposit(asset, fee)]
      ensures asset == "" || fee <= 0 || !answers ==> deposits == old(deposits)
    {
      if asset == "" || fee <= 0 {
        return;
      }
      if answers {
        deposits := deposits + [Deposit(asset, fee)];
      }
    }

    /**
     The money of a submitted batch: every recipient is paid the net of its amount, and the fees are
     deposited together. What leaves the sender is the gross total, unless the deposit fails.
     */
    method SettleBatch(asset: string, amounts: seq<nat>, found: Lookup, answers: bool)
      returns (nets: seq<int>, feeTotal: int)
      requires asset != ""
      modifies this
      ensures |nets| == |amounts| && feeTotal == TotalFee(InForce(found), amounts)
      ensures forall i :: 0 <= i < |nets| ==> 0 <= nets[i] <= amounts[i]
      ensures answers && feeTotal > 0 ==> deposits == old(deposits) + [Deposit(asset, feeTotal)]
      ensures !answers || feeTotal == 0 ==> deposits == old(deposits)
      ensures Sum(nets) + feeTotal == Sum(amounts)
    {
      var c := InForce(found);
      nets, feeTotal := [], 0;
      for i := 0 to |amounts|
        invariant |nets| == i && feeTotal == TotalFee(c, amounts[..i]) && Sum(nets) == TotalNet(c, amounts[..i])
        invariant forall k :: 0 <= k < i ==> 0 <= nets[k] <= amounts[k]
        invariant deposits == old(deposits)
      {
        BreakdownBalances(amounts[i], found, None);
        var b := BuildFeeBreakdown(amounts[i], found, None);
        assert amounts[..i + 1][..i] == amounts[..i];
        assert (nets + [b.net])[..i] == nets;
        nets, feeTotal := nets + [b.net], feeTotal + b.fee;
      }
      assert amounts[..|amounts|] == amounts;
      TotalsBalance(c, amounts);
      CollectPlatformFee(asset, feeTotal, answers);
    }
  }
}
