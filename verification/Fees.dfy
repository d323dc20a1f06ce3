/** Developer and pool fees (calcFeeSat, calcDeveloperFee, the checks in config.Load) and the split of a block reward.
    A configured percentage is an exact real, which may sit slightly off a whole number of basis points. */
module Fees {
  import opened Reals

  const TWO_63: int := 0x8000_0000_0000_0000
  const TWO_64: int := 0x1_0000_0000_0000_0000

  predicate IsInt64(x: int) {
    -TWO_63 <= x < TWO_63
  }

  /** The int64 that Go keeps of an integer result. */
  function Wrap64(x: int): (w: int)
    ensures IsInt64(w)
    ensures IsInt64(x) ==> w == x
    ensures (x - w) % TWO_64 == 0
  {
    (x + TWO_63) % TWO_64 - TWO_63
  }

  /** Go's integer division, which truncates toward zero. */
  function TruncDiv(a: int, b: int): int
    requires b > 0
  {
    if a >= 0 then a / b else -((-a) / b)
  }

  /** math.Round: to the nearest integer, halves away from zero. */
  function Round(x: real): int {
    if x >= 0.0 then (x + 0.5).Floor else -((-x + 0.5).Floor)
  }

  /** The integer part given by math.Modf. */
  function Trunc(x: real): int {
    if x >= 0.0 then x.Floor else -((-x).Floor)
  }

  /** `(total * bps) / 10000` in int64, clamped to [0, total]. */
  function FeeOfBps(total: int, bps: int): int {
    if bps <= 0 then 0
    else
      var fee := TruncDiv(Wrap64(total * bps), 10000);
      if fee < 0 then 0 else if fee > total then total else fee
  }

  /** calcFeeSat: the fee the ledger takes. It is a part of the total even when the product wraps. */
  function LedgerFee(total: int, percent: real): (fee: int)
    ensures 0 <= fee && (fee <= total || fee == 0)
  {
    if total <= 0 || percent <= 0.0 then 0
    else if percent >= 100.0 then total
    else FeeOfBps(total, Round(percent * 100.0))
  }

  /** calcDeveloperFee: the fee output of the coinbase transaction. */
  function CoinbaseFee(total: int, percent: real): (fee: int)
    ensures 0 <= fee && (fee <= total || fee == 0)
  {
    if total <= 0 || percent <= 0.0 then 0
    else if percent >= 100.0 then total
    else
      var scaled := percent * 100.0;
      var whole := Trunc(scaled);
      if Abs(scaled - whole as real) > 0.000000001 then 0 else FeeOfBps(total, whole)
  }

  /** The percentages that config.Load lets through. */
  predicate Accepted(percent: real) {
    0.0 <= percent < 100.0 && Abs(percent * 100.0 - Round(percent * 100.0) as real) < 0.000000001
  }

  // ----- when the int64 product is exact -----

  /** When the fee is the exact floor: precisely when the product does not overflow int64. */
  lemma FeeIsExactFloorIff(total: int, bps: int)
    requires 0 < total < TWO_63 && 0 < bps <= 10000
    ensures FeeOfBps(total, bps) == total * bps / 10000 <==> total * bps < TWO_63
  {
    ProductBounds(total, bps);
    ClampedProduct(total, total * bps);
  }

  lemma ProductBounds(total: int, bps: int)
    requires 0 < total && 0 < bps <= 10000
    ensures 0 < total * bps <= total * 10000
  {
    assert total * (10000 - bps) >= 0;
  }

  lemma ClampedProduct(total: int, product: int)
    requires 0 < total < TWO_63 && 0 < product <= total * 10000
    ensures var fee := TruncDiv(Wrap64(product), 10000);
      (if fee < 0 then 0 else if fee > total then total else fee) == product / 10000 <==> product < TWO_63
  {
    assert product / 10000 <= total;
    if product >= TWO_63 {
      WrapDropsMultiple(product);
      assert product / 10000 >= TWO_63 / 10000 > 0;
      if Wrap64(product) >= 0 {
        assert Wrap64(product) / 10000 <= (product - TWO_64) / 10000 < product / 10000;
      } else {
        assert TruncDiv(Wrap64(product), 10000) <= 0;
      }
    }
  }

  lemma WrapDropsMultiple(x: int)
    requires x >= TWO_63
    ensures Wrap64(x) <= x - TWO_64
  {
    var q := (x + TWO_63) / TWO_64;
    assert x + TWO_63 >= TWO_64;
    assert q >= 1;
    assert (x + TWO_63) % TWO_64 == x + TWO_63 - q * TWO_64;
  }

  /** Every total up to (2^63 - 1) / 10000, about 9.2e14 satoshi, is safe for every percentage. */
  lemma SmallTotalsAreExact(total: int, percent: real)
    requires 0 < total <= (TWO_63 - 1) / 10000 && 0.0 < percent < 100.0
    ensures LedgerFee(total, percent) == total * Round(percent * 100.0) / 10000
  {
    var bps := Round(percent * 100.0);
    assert 0 <= bps <= 10000;
    if bps > 0 {
      assert total * bps <= total * 10000;
      FeeIsExactFloorIff(total, bps);
    }
  }

  lemma RoundOf(x: real, n: int)
    requires n as real - 0.5 < x < n as real + 0.5
    ensures Round(x) == n
  {
  }

  /** The fee of a percentage near `bps` basis points is the floor of that part of the total. */
  lemma FeeIsItsPart(total: int, percent: real, bps: int)
    requires 0 < total <= (TWO_63 - 1) / 10000 && 0.0 <= percent < 100.0
    requires bps as real - 0.5 < percent * 100.0 < bps as real + 0.5
    ensures LedgerFee(total, percent) * 10000 <= total * bps < (LedgerFee(total, percent) + 1) * 10000
  {
    RoundOf(percent * 100.0, bps);
    if percent > 0.0 {
      SmallTotalsAreExact(total, percent);
    } else {
      assert bps == 0;
    }
  }

  // ----- the two fee computations compared -----

  /** Just below a whole number of basis points the coinbase pays no developer fee at all. */
  lemma CoinbaseFeeVanishesBelowInteger(total: int, percent: real)
    requires Accepted(percent) && percent * 100.0 < Round(percent * 100.0) as real
    ensures CoinbaseFee(total, percent) == 0
  {
    var scaled := percent * 100.0;
    assert Trunc(scaled) == Round(scaled) - 1;
  }

  /** A fee is zero exactly if the product, as int64 keeps it, is below 10000. */
  lemma FeeIsZeroIff(total: int, bps: int)
    requires 0 < total && 0 < bps
    ensures FeeOfBps(total, bps) == 0 <==> Wrap64(total * bps) < 10000
  {
    var product := Wrap64(total * bps);
    assert TruncDiv(product, 10000) <= 0 <==> product < 10000;
  }

  /** The coinbase cuts the percentage down to whole basis points: on one, or a billionth above, the fee is its part of the
      total; further above the next lower one, there is none. */
  lemma CoinbaseFeeIsItsPart(total: int, percent: real, bps: int)
    requires 0 < total <= (TWO_63 - 1) / 10000 && 0.0 <= percent < 100.0 && bps as real <= percent * 100.0 < (bps + 1) as real
    ensures if percent * 100.0 - bps as real <= 0.000000001
      then CoinbaseFee(total, percent) * 10000 <= total * bps < (CoinbaseFee(total, percent) + 1) * 10000
      else CoinbaseFee(total, percent) == 0
  {
    assert Trunc(percent * 100.0) == bps;
    if percent > 0.0 && bps > 0 {
      AtMost(total, bps, 10000);
      FeeIsExactFloorIff(total, bps);
    }
  }

  lemma WholePercentTakesAll(total: int, percent: real)
    requires total > 0 && percent >= 100.0
    ensures LedgerFee(total, percent) == CoinbaseFee(total, percent) == total
  {
  }

  /** For every percentage the configuration accepts, the ledger and the coinbase take the same fee if and only if the
      percentage is not below its nearest number of basis points, or the int64 product in either is below 10000. */
  lemma FeesAgreeIff(total: int, percent: real)
    requires IsInt64(total) && Accepted(percent)
    ensures LedgerFee(total, percent) == CoinbaseFee(total, percent)
      <==> percent * 100.0 >= Round(percent * 100.0) as real || total <= 0 || Wrap64(total * Round(percent * 100.0)) < 10000
  {
    var scaled := percent * 100.0;
    if scaled >= Round(scaled) as real {
      assert Trunc(scaled) == Round(scaled);
    } else {
      CoinbaseFeeVanishesBelowInteger(total, percent);
      if total > 0 {
        FeeIsZeroIff(total, Round(scaled));
      }
    }
  }

  /** The same without overflow: below a whole number of basis points, the two differ exactly if the ledger's product
      reaches 10000, that is, if its fee is at least one satoshi. */
  lemma FeesAgreeIffWithoutOverflow(total: int, percent: real)
    requires IsInt64(total) && Accepted(percent) && IsInt64(total * Round(percent * 100.0))
    ensures LedgerFee(total, percent) == CoinbaseFee(total, percent)
      <==> percent * 100.0 >= Round(percent * 100.0) as real || total <= 0 || total * Round(percent * 100.0) < 10000
  {
    FeesAgreeIff(total, percent);
  }

  /** The double nearest to 0.29 is such a percentage: the ledger withholds 0.29 % and the coinbase pays nothing. */
  lemma FeesDisagreeAtPointTwoNine()
    ensures var percent := 0.289999999999999980015985556747182272374629974365234375;
      Accepted(percent) && LedgerFee(1250000000, percent) == 3625000 && CoinbaseFee(1250000000, percent) == 0
  {
    var percent := 0.289999999999999980015985556747182272374629974365234375;
    assert percent * 100.0 == 28.9999999999999980015985556747182272374629974365234375;
    assert Round(percent * 100.0) == 29;
    CoinbaseFeeVanishesBelowInteger(1250000000, percent);
  }

  // ----- the reward of one block -----

  datatype RewardSplit =
    | Split(developer: int, pool: int, miners: int)
    | NoReward
    | NothingAfterDeveloper
    | NothingAfterPool

  /** Lines 228-241 of settleNextBlock. No satoshi is created or lost, and the miners are left with something. */
  function SplitReward(reward: int, developerPercent: real, poolPercent: real): (s: RewardSplit)
    ensures s.Split? ==>
      s.developer + s.pool + s.miners == reward && 0 <= s.developer && 0 <= s.pool && 0 < s.miners
  {
    if reward <= 0 then NoReward
    else
      var developer := LedgerFee(reward, developerPercent);
      var afterDeveloper := reward - developer;
      if afterDeveloper <= 0 then NothingAfterDeveloper
      else
        var pool := LedgerFee(afterDeveloper, poolPercent);
        var miners := afterDeveloper - pool;
        if miners <= 0 then NothingAfterPool else Split(developer, pool, miners)
  }

  /** The developer's part is taken from the reward, the pool's from what is left, each the floor of its percentage. */
  lemma SplitTakesBothFees(reward: int, developerPercent: real, poolPercent: real, developerBps: int, poolBps: int)
    requires 0 < reward <= (TWO_63 - 1) / 10000 && 0.0 <= developerPercent < 100.0 && 0.0 <= poolPercent < 100.0
    requires developerBps as real - 0.5 < developerPercent * 100.0 < developerBps as real + 0.5
    requires poolBps as real - 0.5 < poolPercent * 100.0 < poolBps as real + 0.5
    ensures var s := SplitReward(reward, developerPercent, poolPercent);
      && (s.Split? <==> developerBps < 10000 && poolBps < 10000)
      && (s.Split? ==>
            var left := reward - s.developer;
            && s.developer * 10000 <= reward * developerBps < (s.developer + 1) * 10000
            && s.pool * 10000 <= left * poolBps < (s.pool + 1) * 10000
            && s.miners == left - s.pool)
  {
    var developer := LedgerFee(reward, developerPercent);
    FeeIsItsPart(reward, developerPercent, developerBps);
    PartIsLessIff(reward, developerBps, developer);
    if developer < reward {
      FeeIsItsPart(reward - developer, poolPercent, poolBps);
      PartIsLessIff(reward - developer, poolBps, LedgerFee(reward - developer, poolPercent));
    }
  }

  lemma PartIsLessIff(total: int, bps: int, fee: int)
    requires total > 0 && bps <= 10000 && fee <= total && fee * 10000 <= total * bps < (fee + 1) * 10000
    ensures fee < total <==> bps < 10000
  {
    var part := total * bps;
    if bps < 10000 {
      AtMost(total, bps, 9999);
      assert fee * 10000 <= total * 9999;
    } else {
      assert part == total * 10000;
    }
  }

  lemma AtMost(total: int, bps: int, limit: int)
    requires total > 0 && bps <= limit
    ensures total * bps <= total * limit
  {
  }
}
