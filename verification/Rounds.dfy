/** What a settlement pays, stated on the share table itself: sets of share ids and sums of difficulties. */
module Rounds {
  import opened Sums
  import opened Fees
  import opened Addresses
  import opened Apportionment
  import opened Database
  import opened Plans
  import opened Ledger
  import opened LedgerInvariant
  import opened LedgerTheorems

  // ----- the round as a set of shares -----

  /** Whom a share earns for, and how much. */
  datatype Entry = Entry(address: string, diff: real)

  /** The pool's shares with a positive difficulty and a payout address. */
  ghost function Entries(shares: map<int, ShareRow>, pool: string): map<int, Entry> {
    map i | i in shares && shares[i].pool == pool && shares[i].diff > 0.0 && PayoutAddress(shares[i].worker) != ""
      :: Entry(PayoutAddress(shares[i].worker), shares[i].diff)
  }

  ghost function EarningIds(entries: map<int, Entry>, first: int, last: int): set<int> {
    set i | i in entries && first <= i <= last
  }

  ghost function IdsOf(entries: map<int, Entry>, first: int, last: int, address: string): set<int> {
    set i | i in entries && first <= i <= last && entries[i].address == address
  }

  ghost function DiffAt(entries: map<int, Entry>): int -> real {
    i => if i in entries then entries[i].diff else 0.0
  }

  ghost function Earners(entries: map<int, Entry>, first: int, last: int): set<string> {
    set i | i in entries && first <= i <= last :: entries[i].address
  }

  ghost function WeightIn(entries: map<int, Entry>, first: int, last: int, address: string): real {
    RSum(IdsOf(entries, first, last, address), DiffAt(entries))
  }

  /** Each earner's total difficulty in the range. */
  ghost function RoundWeights(entries: map<int, Entry>, first: int, last: int): map<string, real> {
    map a | a in Earners(entries, first, last) :: WeightIn(entries, first, last, a)
  }

  /** The ids from behind the pool's previous block to this one. */
  ghost predicate IsRound(shares: map<int, ShareRow>, pool: string, first: int, id: int) {
    && 1 <= first <= id
    && (first == 1 || IsBlockOf(shares, pool, first - 1))
    && (forall b :: first <= b < id ==> !IsBlockOf(shares, pool, b))
  }

  /** The reward is apportioned by the difficulties earned in the range. */
  ghost predicate PaysRange(entries: map<int, Entry>, first: int, last: int, plan: Plan) {
    && plan.alloc == Allocation(plan.minerReward, RoundWeights(entries, first, last))
    && plan.sharesCount == |EarningIds(entries, first, last)|
    && plan.totalWeight == RSum(EarningIds(entries, first, last), DiffAt(entries))
  }

  /** A block's settlement pays exactly its round. */
  ghost predicate PaysItsRound(shares: map<int, ShareRow>, pool: string, id: int, plan: Plan) {
    && plan.roundEnd == id && IsRound(shares, pool, plan.roundStart, id)
    && PaysRange(Entries(shares, pool), plan.roundStart, id, plan)
  }

  /** A solo block pays its finder everything. */
  ghost predicate PaysItsFinder(row: ShareRow, id: int, plan: Plan) {
    && plan.alloc == map[PayoutAddress(row.worker) := plan.minerReward] && PayoutAddress(row.worker) != ""
    && plan.roundStart == plan.roundEnd == id && plan.sharesCount == 1
    && plan.totalWeight == (if row.diff > 0.0 then row.diff else 0.0)
  }

  /** The reward after the developer's fee, and the pool's fee on what is left. */
  ghost predicate RewardAfterFees(cfg: Config, miners: int) {
    var left := cfg.reward - LedgerFee(cfg.reward, cfg.developerPercent);
    miners == left - LedgerFee(left, cfg.poolPercent) > 0
  }

  // ----- id by id -----

  lemma RSumAdd(s: set<int>, x: int, f: int -> real)
    requires x !in s
    ensures RSum(s + {x}, f) == f(x) + RSum(s, f)
  {
    RSumRemove(s + {x}, x, f);
    assert s + {x} - {x} == s;
  }

  lemma IdsStep(entries: map<int, Entry>, first: int, last: int)
    requires first <= last
    ensures EarningIds(entries, first, last) == EarningIds(entries, first, last - 1) + if last in entries then {last} else {}
    ensures Earners(entries, first, last)
      == Earners(entries, first, last - 1) + if last in entries then {entries[last].address} else {}
  {
  }

  lemma WeightInStep(entries: map<int, Entry>, first: int, last: int, a: string)
    requires first <= last
    ensures WeightIn(entries, first, last, a) == WeightIn(entries, first, last - 1, a)
      + if last in entries && entries[last].address == a then entries[last].diff else 0.0
  {
    var before, after := IdsOf(entries, first, last - 1, a), IdsOf(entries, first, last, a);
    if last in entries && entries[last].address == a {
      assert after == before + {last};
      RSumAdd(before, last, DiffAt(entries));
    } else {
      assert after == before;
    }
  }

  lemma NoIdsNoWeight(entries: map<int, Entry>, first: int, last: int, a: string)
    requires a !in Earners(entries, first, last)
    ensures WeightIn(entries, first, last, a) == 0.0
  {
    assert IdsOf(entries, first, last, a) == {};
  }

  /** One more share adds its difficulty to its address. */
  ghost function Plus(before: map<string, real>, e: Entry): map<string, real> {
    before[e.address := (if e.address in before then before[e.address] else 0.0) + e.diff]
  }

  lemma PlusAt(before: map<string, real>, after: map<string, real>, e: Entry)
    requires after.Keys == before.Keys + {e.address}
    requires forall a :: a in after ==>
      after[a] == (if a in before then before[a] else 0.0) + if e.address == a then e.diff else 0.0
    ensures after == Plus(before, e)
  {
  }

  lemma WeightAtStep(entries: map<int, Entry>, first: int, last: int, a: string)
    requires first <= last && a in Earners(entries, first, last)
    ensures var before, after := RoundWeights(entries, first, last - 1), RoundWeights(entries, first, last);
      after[a] == (if a in before then before[a] else 0.0)
        + if last in entries && entries[last].address == a then entries[last].diff else 0.0
  {
    WeightInStep(entries, first, last, a);
    if a !in Earners(entries, first, last - 1) {
      NoIdsNoWeight(entries, first, last - 1, a);
    }
  }

  lemma SameAt(before: map<string, real>, after: map<string, real>)
    requires after.Keys == before.Keys && forall a :: a in after ==> after[a] == before[a]
    ensures after == before
  {
  }

  lemma WeightsStep(entries: map<int, Entry>, first: int, last: int)
    requires first <= last
    ensures RoundWeights(entries, first, last)
      == if last in entries then Plus(RoundWeights(entries, first, last - 1), entries[last])
         else RoundWeights(entries, first, last - 1)
  {
    IdsStep(entries, first, last);
    var before, after := RoundWeights(entries, first, last - 1), RoundWeights(entries, first, last);
    if last in entries {
      forall a | a in after
        ensures after[a] == (if a in before then before[a] else 0.0) + if entries[last].address == a then entries[last].diff else 0.0
      {
        WeightAtStep(entries, first, last, a);
      }
      PlusAt(before, after, entries[last]);
    } else {
      forall a | a in after ensures after[a] == before[a] {
        WeightAtStep(entries, first, last, a);
      }
      SameAt(before, after);
    }
  }

  lemma NoRound(entries: map<int, Entry>, first: int, last: int)
    requires last < first
    ensures EarningIds(entries, first, last) == {} && RoundWeights(entries, first, last) == map[]
  {
    assert Earners(entries, first, last) == {};
  }

  /** `weights` and `count` start empty at `lo` and go from k - 1 to k by the share with id k. */
  ghost predicate StepAt(entries: map<int, Entry>, lo: int, k: int, weights: int -> map<string, real>, count: int -> int) {
    if k <= lo then weights(k) == map[] && count(k) == 0
    else
      && weights(k) == (if k in entries then Plus(weights(k - 1), entries[k]) else weights(k - 1))
      && count(k) == count(k - 1) + if k in entries then 1 else 0
  }

  lemma {:induction false} BuiltUpIsRound(entries: map<int, Entry>, lo: int, hi: int, weights: int -> map<string, real>, count: int -> int)
    requires forall k :: StepAt(entries, lo, k, weights, count)
    ensures weights(hi) == RoundWeights(entries, lo + 1, hi) && count(hi) == |EarningIds(entries, lo + 1, hi)|
    decreases hi - lo
  {
    assert StepAt(entries, lo, hi, weights, count);
    if hi <= lo {
      NoRound(entries, lo + 1, hi);
    } else {
      BuiltUpIsRound(entries, lo, hi - 1, weights, count);
      WeightsStep(entries, lo + 1, hi);
      OneMoreId(entries, lo + 1, hi);
    }
  }

  lemma OneMoreId(entries: map<int, Entry>, first: int, last: int)
    requires first <= last
    ensures |EarningIds(entries, first, last)| == |EarningIds(entries, first, last - 1)| + if last in entries then 1 else 0
  {
    IdsStep(entries, first, last);
    assert last !in EarningIds(entries, first, last - 1);
  }

  lemma RSumSame(s: set<string>, f: string -> real, g: string -> real)
    requires forall x :: x in s ==> f(x) == g(x)
    ensures RSum(s, f) == RSum(s, g)
  {
    RSumScale(s, 1.0, f, g);
  }

  lemma WeightMore(weights: map<string, real>, e: Entry)
    requires AllPositive(weights) && e.diff > 0.0
    ensures AllPositive(Plus(weights, e)) && TotalWeight(Plus(weights, e)) == TotalWeight(weights) + e.diff
  {
    var a, after := e.address, Plus(weights, e);
    var others := weights.Keys - {a};
    assert Payees(weights) == weights.Keys && Payees(after) == after.Keys == weights.Keys + {a};
    assert Payees(after) - {a} == others;
    RSumRemove(Payees(after), a, RAt(after));
    RSumSame(others, RAt(after), RAt(weights));
    if a in weights {
      RSumRemove(Payees(weights), a, RAt(weights));
    } else {
      assert others == Payees(weights);
    }
  }

  /** All weights together are all difficulties together. */
  lemma {:induction false} TotalOfRound(entries: map<int, Entry>, first: int, last: int)
    requires forall i :: i in entries ==> entries[i].diff > 0.0
    ensures var weights := RoundWeights(entries, first, last);
      AllPositive(weights) && TotalWeight(weights) == RSum(EarningIds(entries, first, last), DiffAt(entries))
    decreases last - first
  {
    if last < first {
      NoRound(entries, first, last);
      assert Payees(map[]) == {};
    } else {
      TotalOfRound(entries, first, last - 1);
      IdsStep(entries, first, last);
      WeightsStep(entries, first, last);
      var ids := EarningIds(entries, first, last - 1);
      if last !in entries {
        assert EarningIds(entries, first, last) == ids;
      } else {
        RSumAdd(ids, last, DiffAt(entries));
        WeightMore(RoundWeights(entries, first, last - 1), entries[last]);
      }
    }
  }

  lemma EntryAt(shares: map<int, ShareRow>, pool: string, i: int)
    ensures i in Entries(shares, pool) <==> i in shares && shares[i].pool == pool && Counts(shares[i])
    ensures i in Entries(shares, pool) ==> Entries(shares, pool)[i] == EntryOf(shares[i])
  {
  }

  ghost function EntryOf(row: ShareRow): Entry {
    Entry(PayoutAddress(row.worker), row.diff)
  }

  lemma AddIsPlus(weights: map<string, real>, row: ShareRow)
    ensures AddWeight(weights, row) == if Counts(row) then Plus(weights, EntryOf(row)) else weights
  {
  }

  lemma LastRow(init: seq<ShareRow>, row: ShareRow)
    ensures WeightsOf(init + [row]) == AddWeight(WeightsOf(init), row)
    ensures CountedOf(init + [row]) == CountedOf(init) + if Counts(row) then 1 else 0
  {
    assert (init + [row])[..|init|] == init;
  }

  /** What the rows of one id more do to the weights and the count. */
  lemma OneMoreRow(shares: map<int, ShareRow>, pool: string, lo: int, hi: int)
    requires hi > lo
    ensures var init, rows, entries := RoundRows(shares, pool, lo, hi - 1), RoundRows(shares, pool, lo, hi), Entries(shares, pool);
      && WeightsOf(rows) == (if hi in entries then Plus(WeightsOf(init), entries[hi]) else WeightsOf(init))
      && CountedOf(rows) == CountedOf(init) + if hi in entries then 1 else 0
  {
    var init := RoundRows(shares, pool, lo, hi - 1);
    EntryAt(shares, pool, hi);
    if hi in shares && shares[hi].pool == pool {
      assert RoundRows(shares, pool, lo, hi) == init + [shares[hi]];
      LastRow(init, shares[hi]);
      AddIsPlus(WeightsOf(init), shares[hi]);
    } else {
      assert RoundRows(shares, pool, lo, hi) == init + [];
      assert init + [] == init;
    }
  }

  /** The loop over the round's rows computes the weights and the number of shares of the round. */
  lemma RowsWeigh(shares: map<int, ShareRow>, pool: string, lo: int, hi: int)
    ensures WeightsOf(RoundRows(shares, pool, lo, hi)) == RoundWeights(Entries(shares, pool), lo + 1, hi)
    ensures CountedOf(RoundRows(shares, pool, lo, hi)) == |EarningIds(Entries(shares, pool), lo + 1, hi)|
  {
    var entries, weights, count := Entries(shares, pool), WeightsUpTo(shares, pool, lo), CountUpTo(shares, pool, lo);
    forall k ensures StepAt(entries, lo, k, weights, count) {
      RowStepsAt(shares, pool, lo, k);
    }
    BuiltUpIsRound(entries, lo, hi, weights, count);
  }

  ghost function WeightsUpTo(shares: map<int, ShareRow>, pool: string, lo: int): int -> map<string, real> {
    k => WeightsOf(RoundRows(shares, pool, lo, k))
  }

  ghost function CountUpTo(shares: map<int, ShareRow>, pool: string, lo: int): int -> int {
    k => CountedOf(RoundRows(shares, pool, lo, k))
  }

  lemma RowStepsAt(shares: map<int, ShareRow>, pool: string, lo: int, k: int)
    ensures StepAt(Entries(shares, pool), lo, k, WeightsUpTo(shares, pool, lo), CountUpTo(shares, pool, lo))
  {
    if k > lo {
      OneMoreRow(shares, pool, lo, k);
    }
  }

  // ----- plans -----

  /** An l-prop settlement pays its round and nothing else, whatever else the table holds. */
  lemma LpropPaysItsRound(shares: map<int, ShareRow>, cfg: Config, pool: string, id: int)
    requires id in shares && id >= 1 && cfg.scheme == Lprop && PlanSettlement(shares, cfg, pool, id).Planned?
    ensures var plan := PlanSettlement(shares, cfg, pool, id).plan;
      PaysItsRound(shares, pool, id, plan) && RewardAfterFees(cfg, plan.minerReward)
  {
    var split := SplitReward(cfg.reward, cfg.developerPercent, cfg.poolPercent);
    LpropPlanIs(shares, split.miners, pool, id);
  }

  lemma RowsFields(shares: map<int, ShareRow>, pool: string, lo: int, hi: int, miners: int)
    ensures var plan := PlanOfRows(shares, pool, lo, hi, miners); plan.roundStart == lo + 1 && plan.roundEnd == hi
  {
  }

  lemma PaidRound(shares: map<int, ShareRow>, pool: string, id: int, first: int, plan: Plan)
    requires plan.roundStart == first && plan.roundEnd == id
    requires IsRound(shares, pool, first, id) && PaysRange(Entries(shares, pool), first, id, plan)
    ensures PaysItsRound(shares, pool, id, plan)
  {
  }

  lemma RowsPayTheRound(shares: map<int, ShareRow>, pool: string, id: int, miners: int)
    requires id >= 1
    ensures PaysItsRound(shares, pool, id, PlanOfRows(shares, pool, PreviousBlock(shares, pool, id), id, miners))
  {
    var prev := PreviousBlock(shares, pool, id);
    BehindPreviousBlock(shares, pool, id);
    RowsPayRange(shares, pool, prev, id, miners);
    RowsFields(shares, pool, prev, id, miners);
    PaidRound(shares, pool, id, prev + 1, PlanOfRows(shares, pool, prev, id, miners));
  }

  lemma LpropPlanIs(shares: map<int, ShareRow>, miners: int, pool: string, id: int)
    requires id in shares && id >= 1 && PlanLprop(shares, miners, pool, id).Planned?
    ensures var plan := PlanLprop(shares, miners, pool, id).plan; plan.minerReward == miners && PaysItsRound(shares, pool, id, plan)
  {
    RowsPayTheRound(shares, pool, id, miners);
    LpropPlanFields(shares, miners, pool, id);
  }

  lemma LpropPlanFields(shares: map<int, ShareRow>, miners: int, pool: string, id: int)
    requires PlanLprop(shares, miners, pool, id).Planned?
    ensures var prev := PreviousBlock(shares, pool, id);
      PlanLprop(shares, miners, pool, id).plan == PlanOfRows(shares, pool, prev, id, miners)
  {
  }

  ghost function PlanOfRows(shares: map<int, ShareRow>, pool: string, lo: int, hi: int, miners: int): Plan {
    var rows := RoundRows(shares, pool, lo, hi);
    Plan(miners, Allocation(miners, WeightsOf(rows)), lo + 1, hi, CountedOf(rows), TotalWeight(WeightsOf(rows)))
  }

  lemma BehindPreviousBlock(shares: map<int, ShareRow>, pool: string, id: int)
    requires id >= 1
    ensures IsRound(shares, pool, PreviousBlock(shares, pool, id) + 1, id)
  {
  }

  lemma RowsPayRange(shares: map<int, ShareRow>, pool: string, lo: int, hi: int, miners: int)
    ensures PaysRange(Entries(shares, pool), lo + 1, hi, PlanOfRows(shares, pool, lo, hi, miners))
  {
    RowsWeigh(shares, pool, lo, hi);
    TotalOfRound(Entries(shares, pool), lo + 1, hi);
  }

  lemma SoloPaysItsFinder(shares: map<int, ShareRow>, cfg: Config, pool: string, id: int)
    requires id in shares && cfg.scheme == Solo && PlanSettlement(shares, cfg, pool, id).Planned?
    ensures var plan := PlanSettlement(shares, cfg, pool, id).plan;
      PaysItsFinder(shares[id], id, plan) && RewardAfterFees(cfg, plan.minerReward)
  {
  }

  /** The tables hold the same shares of the pool in the range. */
  ghost predicate AgreeOn(shares: map<int, ShareRow>, other: map<int, ShareRow>, pool: string, first: int, last: int) {
    forall i :: first <= i <= last ==> RowAt(shares, pool, i) == RowAt(other, pool, i)
  }

  lemma {:induction false} RowsAgree(shares: map<int, ShareRow>, other: map<int, ShareRow>, pool: string, lo: int, hi: int)
    requires AgreeOn(shares, other, pool, lo + 1, hi)
    ensures RoundRows(shares, pool, lo, hi) == RoundRows(other, pool, lo, hi)
    decreases hi - lo
  {
    if hi > lo {
      RowsAgree(shares, other, pool, lo, hi - 1);
    }
  }

  /** A settlement reads the shares of its own range and no other: with the same previous block, tables that agree on
      the range give the same plan. */
  lemma PlanReadsItsRangeOnly(shares: map<int, ShareRow>, other: map<int, ShareRow>, cfg: Config, pool: string, id: int)
    requires IsBlockOf(shares, pool, id) && id >= 1 && PlanSettlement(shares, cfg, pool, id).Planned?
    requires PreviousBlock(other, pool, id) == PreviousBlock(shares, pool, id)
    requires var plan := PlanSettlement(shares, cfg, pool, id).plan; AgreeOn(shares, other, pool, plan.roundStart, plan.roundEnd)
    ensures id in other && PlanSettlement(other, cfg, pool, id) == PlanSettlement(shares, cfg, pool, id)
  {
    assert RowAt(shares, pool, id) == [shares[id]];
    assert RowAt(other, pool, id) == [shares[id]];
    if cfg.scheme == Lprop {
      RowsAgree(shares, other, pool, PreviousBlock(shares, pool, id), id);
    }
  }

  // ----- every credit of every run -----

  ghost predicate CreditIsRight(shares: map<int, ShareRow>, settlements: map<int, SettlementRow>, c: CreditRecord) {
    && c.block in shares && RewardAfterFees(c.cfg, c.plan.minerReward)
    && (match c.cfg.scheme
        case Lprop => PaysItsRound(shares, c.pool, c.block, c.plan)
        case Solo => PaysItsFinder(shares[c.block], c.block, c.plan)
        case OtherScheme => false)
    && c.block in settlements
    && settlements[c.block] == SettlementRow(c.pool, shares[c.block].key, c.cfg.reward, c.plan.minerReward,
         c.plan.roundStart, c.plan.roundEnd, c.plan.sharesCount, c.plan.totalWeight)
  }

  lemma AuditedIsRight(shares: map<int, ShareRow>, settlements: map<int, SettlementRow>, c: CreditRecord)
    requires Audited(shares, settlements, c) && c.block >= 1
    ensures CreditIsRight(shares, settlements, c)
  {
    if c.cfg.scheme == Lprop {
      LpropPaysItsRound(shares, c.cfg, c.pool, c.block);
    } else {
      SoloPaysItsFinder(shares, c.cfg, c.pool, c.block);
    }
  }

  /** In every reachable state every credit paid exactly its round, or its finder, and its settlement row says so. */
  lemma EveryCreditIsRight(w0: World, run: seq<Action>, w: World, i: nat)
    requires Reachable(w0, run, w) && i < |w.credits|
    ensures CreditIsRight(w.t.shares, w.t.settlements, w.credits[i])
  {
    ReachableInv(w0, run, w);
    assert Audited(w.t.shares, w.t.settlements, w.credits[i]);
    AuditedIsRight(w.t.shares, w.t.settlements, w.credits[i]);
  }

  /** Settling this credit's block on these shares gives this credit. */
  ghost predicate StillPays(shares: map<int, ShareRow>, c: CreditRecord) {
    c.block in shares && PlanSettlement(shares, c.cfg, c.pool, c.block) == Planned(c.plan)
  }

  /** A share earns through one settlement only: rewriting its worker or difficulty, in any reachable state, would change
      at most one of the pool's credits. */
  lemma ShareEarnsThroughOneCredit(w0: World, run: seq<Action>, w: World, s: int, row: ShareRow, i: nat, k: nat)
    requires Reachable(w0, run, w) && i < |w.credits| && k < |w.credits| && i != k
    requires w.credits[i].pool == w.credits[k].pool
    requires s in w.t.shares && row.pool == w.t.shares[s].pool && row.isBlock == w.t.shares[s].isBlock
    ensures StillPays(w.t.shares[s := row], w.credits[i]) || StillPays(w.t.shares[s := row], w.credits[k])
  {
    ReachableInv(w0, run, w);
    var c, d := w.credits[i], w.credits[k];
    assert Audited(w.t.shares, w.t.settlements, c) && Audited(w.t.shares, w.t.settlements, d);
    assert c.block != d.block;
    PlannedRound(w.t.shares, c.cfg, c.pool, c.block);
    PlannedRound(w.t.shares, d.cfg, d.pool, d.block);
    if c.plan.roundStart <= s <= c.plan.roundEnd && d.plan.roundStart <= s <= d.plan.roundEnd {
      RoundsAreDisjoint(w.t.shares, c.pool, c.block, d.block, s);
    } else if c.plan.roundStart <= s <= c.plan.roundEnd {
      OutsideItsRange(w.t.shares, w.t.settlements, d, s, row);
    } else {
      OutsideItsRange(w.t.shares, w.t.settlements, c, s, row);
    }
  }

  lemma OutsideItsRange(shares: map<int, ShareRow>, settlements: map<int, SettlementRow>, c: CreditRecord, s: int, row: ShareRow)
    requires Audited(shares, settlements, c) && c.block >= 1
    requires s in shares && row.pool == shares[s].pool && row.isBlock == shares[s].isBlock
    requires !(c.plan.roundStart <= s <= c.plan.roundEnd)
    ensures StillPays(shares[s := row], c)
  {
    PreviousBlockSame(shares, s, row, c.pool, c.block);
    PlanReadsItsRangeOnly(shares, shares[s := row], c.cfg, c.pool, c.block);
  }

  lemma {:induction false} PreviousBlockSame(shares: map<int, ShareRow>, s: int, row: ShareRow, pool: string, id: int)
    requires s in shares && row.pool == shares[s].pool && row.isBlock == shares[s].isBlock
    ensures PreviousBlock(shares[s := row], pool, id) == PreviousBlock(shares, pool, id)
    decreases id
  {
    if id > 1 {
      PreviousBlockSame(shares, s, row, pool, id - 1);
    }
  }
}
