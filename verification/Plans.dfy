/** What a settlement plan guarantees, and why a closed round never changes. */
module Plans {
  import opened Fees
  import opened Addresses
  import opened Apportionment
  import opened Database

  // ----- weights -----

  ghost predicate AllPositive(weights: map<string, real>) {
    forall w :: w in weights ==> weights[w] > 0.0
  }

  lemma {:induction false} WeightsArePositive(rows: seq<ShareRow>)
    ensures AllPositive(WeightsOf(rows)) && "" !in WeightsOf(rows)
  {
    if rows != [] {
      WeightsArePositive(rows[..|rows| - 1]);
    }
  }

  ghost predicate SomeCounts(rows: seq<ShareRow>) {
    exists r :: r in rows && Counts(r)
  }

  /** There is a weight exactly when some share of the round counts. */
  lemma {:induction false} WeightsIfSomeCounts(rows: seq<ShareRow>)
    ensures WeightsOf(rows) != map[] <==> SomeCounts(rows)
  {
    if rows != [] {
      var init, last := rows[..|rows| - 1], rows[|rows| - 1];
      WeightsIfSomeCounts(init);
      assert rows == init + [last];
      if Counts(last) {
        assert PayoutAddress(last.worker) in WeightsOf(rows);
        assert last in rows;
      } else {
        assert WeightsOf(rows) == WeightsOf(init);
        assert forall r :: r in rows <==> r in init || r == last;
      }
    }
  }

  /** The difficulty earned under one address, row by row. */
  ghost function Earned(rows: seq<ShareRow>, address: string): real {
    if rows == [] then 0.0
    else
      var last := rows[|rows| - 1];
      Earned(rows[..|rows| - 1], address)
      + if Counts(last) && PayoutAddress(last.worker) == address then last.diff else 0.0
  }

  /** The weight of an address is the total difficulty of its counted shares. */
  lemma {:induction false} WeightIsEarnedDifficulty(rows: seq<ShareRow>, address: string)
    ensures RAt(WeightsOf(rows))(address) == Earned(rows, address)
  {
    if rows != [] {
      WeightIsEarnedDifficulty(rows[..|rows| - 1], address);
    }
  }

  // ----- plans -----

  ghost predicate Payers(alloc: map<string, int>) {
    forall w :: w in alloc ==> alloc[w] >= 0
  }

  /** Every accepted plan distributes exactly the miners' reward, in non-negative amounts, to non-empty addresses. */
  lemma PlanDistributesReward(shares: map<int, ShareRow>, cfg: Config, pool: string, id: int)
    requires id in shares
    ensures var p := PlanSettlement(shares, cfg, pool, id);
      p.Planned? ==>
        && p.plan.minerReward > 0 && Amounts(p.plan.alloc) == p.plan.minerReward
        && Payers(p.plan.alloc) && "" !in p.plan.alloc
  {
    var p := PlanSettlement(shares, cfg, pool, id);
    if p.Planned? {
      var miners := p.plan.minerReward;
      if cfg.scheme == Solo {
        OneWinner(PayoutAddress(shares[id].worker), miners);
      } else {
        var weights := WeightsOf(RoundRows(shares, pool, PreviousBlock(shares, pool, id), id));
        WeightsArePositive(RoundRows(shares, pool, PreviousBlock(shares, pool, id), id));
        SomePayee(weights);
        AllocationSumsToTotal(miners, weights);
      }
    }
  }

  lemma SomePayee(weights: map<string, real>)
    requires weights != map[] && AllPositive(weights)
    ensures Payees(weights) == weights.Keys != {}
  {
  }

  lemma OneWinner(winner: string, amount: int)
    ensures Amounts(map[winner := amount]) == amount
  {
    AmountsInsert(map[], winner, amount);
    assert map[][winner := amount] == map[winner := amount];
  }

  /** When settleNextBlock accepts a block: the reward survives both fees, the scheme is known, and somebody can be
      paid - the finder for solo, at least one valid share of the round for l-prop. */
  lemma PlanAcceptedIff(shares: map<int, ShareRow>, cfg: Config, pool: string, id: int)
    requires id in shares
    ensures PlanSettlement(shares, cfg, pool, id).Planned? <==>
      && SplitReward(cfg.reward, cfg.developerPercent, cfg.poolPercent).Split?
      && match cfg.scheme
         case Solo => PayoutAddress(shares[id].worker) != ""
         case Lprop => exists i :: PreviousBlock(shares, pool, id) < i <= id && i in shares && shares[i].pool == pool && Counts(shares[i])
         case OtherScheme => false
  {
    var prev := PreviousBlock(shares, pool, id);
    var rows := RoundRows(shares, pool, prev, id);
    WeightsIfSomeCounts(rows);
    RoundRowsAre(shares, pool, prev, id);
    if r :| r in rows && Counts(r) {
      var i :| prev < i <= id && i in shares && shares[i].pool == pool && shares[i] == r;
    }
    if i :| prev < i <= id && i in shares && shares[i].pool == pool && Counts(shares[i]) {
      assert shares[i] in rows;
    }
  }

  lemma {:induction false} RoundRowsAre(shares: map<int, ShareRow>, pool: string, lo: int, hi: int)
    ensures forall r :: r in RoundRows(shares, pool, lo, hi) <==>
      exists i :: lo < i <= hi && i in shares && shares[i].pool == pool && shares[i] == r
    decreases hi - lo
  {
    if hi > lo {
      RoundRowsAre(shares, pool, lo, hi - 1);
    }
  }

  // ----- rounds -----

  ghost predicate InRound(shares: map<int, ShareRow>, pool: string, block: int, s: int) {
    PreviousBlock(shares, pool, block) < s <= block
  }

  /** Two rounds of one pool never share an id. */
  lemma RoundsAreDisjoint(shares: map<int, ShareRow>, pool: string, b: int, c: int, s: int)
    requires IsBlockOf(shares, pool, b) && IsBlockOf(shares, pool, c) && b >= 1 && c >= 1
    requires InRound(shares, pool, b, s) && InRound(shares, pool, c, s)
    ensures b == c
  {
  }

  /** Every id up to a block lies in the round of some block of the pool: rounds cover the share stream. */
  lemma {:induction false} RoundsCover(shares: map<int, ShareRow>, pool: string, last: int, s: int) returns (b: int)
    requires IsBlockOf(shares, pool, last) && 1 <= s <= last
    ensures IsBlockOf(shares, pool, b) && s <= b <= last && InRound(shares, pool, b, s)
    decreases last
  {
    var prev := PreviousBlock(shares, pool, last);
    if prev < s {
      b := last;
    } else {
      b := RoundsCover(shares, pool, prev, s);
    }
  }

  ghost predicate AgreeUpTo(shares: map<int, ShareRow>, later: map<int, ShareRow>, pool: string, id: int) {
    forall i :: i <= id ==>
      ((i in shares && shares[i].pool == pool) <==> (i in later && later[i].pool == pool))
      && (i in shares && shares[i].pool == pool ==> shares[i] == later[i])
  }

  lemma {:induction false} PreviousBlockDependsOnPool(shares: map<int, ShareRow>, later: map<int, ShareRow>, pool: string, id: int)
    requires AgreeUpTo(shares, later, pool, id)
    ensures PreviousBlock(shares, pool, id) == PreviousBlock(later, pool, id)
    decreases id
  {
    if id > 1 {
      PreviousBlockDependsOnPool(shares, later, pool, id - 1);
    }
  }

  lemma {:induction false} RoundRowsDependOnPool(shares: map<int, ShareRow>, later: map<int, ShareRow>, pool: string, lo: int, hi: int)
    requires AgreeUpTo(shares, later, pool, hi)
    ensures RoundRows(shares, pool, lo, hi) == RoundRows(later, pool, lo, hi)
    decreases hi - lo
  {
    if hi > lo {
      RoundRowsDependOnPool(shares, later, pool, lo, hi - 1);
    }
  }

  lemma LpropDependsOnClosedRound(shares: map<int, ShareRow>, later: map<int, ShareRow>, miners: int, pool: string, id: int)
    requires AgreeUpTo(shares, later, pool, id)
    ensures PlanLprop(shares, miners, pool, id) == PlanLprop(later, miners, pool, id)
  {
    PreviousBlockDependsOnPool(shares, later, pool, id);
    RoundRowsDependOnPool(shares, later, pool, PreviousBlock(shares, pool, id), id);
  }

  /** A plan looks only at the pool's own shares up to the block: appending shares, or shares of other pools, never
      changes it. */
  lemma PlanDependsOnClosedRound(shares: map<int, ShareRow>, later: map<int, ShareRow>, cfg: Config, pool: string, id: int)
    requires AgreeUpTo(shares, later, pool, id)
    requires id in shares && shares[id].pool == pool
    ensures id in later && PlanSettlement(shares, cfg, pool, id) == PlanSettlement(later, cfg, pool, id)
  {
    var split := SplitReward(cfg.reward, cfg.developerPercent, cfg.poolPercent);
    if split.Split? {
      LpropDependsOnClosedRound(shares, later, split.miners, pool, id);
    }
  }
}
