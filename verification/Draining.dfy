/** Settling block after block (settleAllBlocks) as a function, and all that it changes. */
module Draining {
  import opened Sums
  import opened Options
  import opened Database

  // ----- draining the mature blocks -----

  function UnsettledIds(t: Tables, pool: string): set<int> {
    set id | id in t.shares && Unsettled(t, pool, id)
  }

  /** ORDER BY id ASC LIMIT 1. */
  function Lowest(s: set<int>): (m: int)
    requires s != {}
    ensures m in s && forall x :: x in s ==> m <= x
  {
    LowestExists(s);
    var m :| m in s && forall x :: x in s ==> m <= x;
    m
  }

  lemma {:induction false} LowestExists(s: set<int>)
    requires s != {}
    ensures exists m :: m in s && forall x :: x in s ==> m <= x
  {
    var m := Pick(s);
    if s != {m} {
      assert s - {m} != {} by {
        assert s == (s - {m}) + {m};
      }
      LowestExists(s - {m});
      var n :| n in s - {m} && forall x :: x in s - {m} ==> n <= x;
      var least := if m <= n then m else n;
      assert least in s;
      forall x | x in s ensures least <= x {
        assert x != m ==> x in s - {m};
      }
    }
  }

  /** What settling this block would do: the primary key is checked when the row is inserted. */
  ghost function Outcome(t: Tables, cfg: Config, pool: string, id: int): Planning
    requires id in t.shares
  {
    match PlanSettlement(t.shares, cfg, pool, id)
    case Refused(e) => Refused(e)
    case Planned(plan) => if id in t.settlements then Refused(DuplicateSettlement) else Planned(plan)
  }

  ghost predicate Succeeds(t: Tables, cfg: Config, pool: string, id: int) {
    id in t.shares && Outcome(t, cfg, pool, id).Planned?
  }

  datatype Drained = Drained(t: Tables, count: nat, error: Option<PlanError>)

  /** settleAllBlocks as a function: settle the lowest unsettled block until none is left or one fails. */
  ghost function Drain(t: Tables, cfg: Config, pool: string): Drained
    decreases UnsettledIds(t, pool)
  {
    var ids := UnsettledIds(t, pool);
    if ids == {} then Drained(t, 0, None)
    else
      var id := Lowest(ids);
      match Outcome(t, cfg, pool, id)
      case Refused(e) => Drained(t, 0, Some(e))
      case Planned(plan) =>
        SettleShrinks(t, pool, id, cfg.reward, plan);
        var rest := Drain(Settle(t, pool, id, cfg.reward, plan), cfg, pool);
        rest.(count := rest.count + 1)
  }

  lemma SettleShrinks(t: Tables, pool: string, id: int, reward: int, plan: Plan)
    requires id in UnsettledIds(t, pool)
    ensures UnsettledIds(Settle(t, pool, id, reward, plan), pool) == UnsettledIds(t, pool) - {id}
  {
  }

  /** Settling one block does not change what settling another one would do. */
  lemma OutcomesAreIndependent(t: Tables, cfg: Config, pool: string, id: int, plan: Plan, other: int)
    requires id in t.shares && other in t.shares && other != id
    ensures Outcome(Settle(t, pool, id, cfg.reward, plan), cfg, pool, other) == Outcome(t, cfg, pool, other)
  {
  }

  /** The ids of `ids` with no failing id at or below them; `ok` are those that succeed. */
  ghost function BelowFirstFailure(ids: set<int>, ok: set<int>): set<int> {
    set id | id in ids && forall f :: f in ids && f <= id ==> f in ok
  }

  ghost predicate FirstFailure(ids: set<int>, ok: set<int>, f: int) {
    f in ids && f !in ok && forall g :: g in ids && g < f ==> g in ok
  }

  lemma DropLowest(ids: set<int>, ok: set<int>)
    requires ids != {} && Lowest(ids) in ok
    ensures var id := Lowest(ids); var ids' := ids - {id};
      && BelowFirstFailure(ids, ok) == BelowFirstFailure(ids', ok) + {id}
      && id !in BelowFirstFailure(ids', ok)
      && forall f :: FirstFailure(ids, ok, f) <==> FirstFailure(ids', ok, f)
  {
    var id := Lowest(ids);
    var ids' := ids - {id};
    forall f | f in ids' ensures f in BelowFirstFailure(ids, ok) <==> f in BelowFirstFailure(ids', ok) {
      assert forall g :: g in ids <==> g == id || g in ids';
    }
    assert id in BelowFirstFailure(ids, ok);
  }

  /** The blocks whose settlement succeeds. */
  ghost function Good(t: Tables, cfg: Config, pool: string): set<int> {
    set id | id in t.shares && Succeeds(t, cfg, pool, id)
  }

  /** The blocks a drain settles: those with no failing block at or below them. */
  ghost function Settleable(t: Tables, cfg: Config, pool: string): set<int> {
    BelowFirstFailure(UnsettledIds(t, pool), Good(t, cfg, pool))
  }

  lemma {:induction false} BelowDependsOnIds(ids: set<int>, ok: set<int>, ok': set<int>)
    requires forall x :: x in ids ==> (x in ok <==> x in ok')
    ensures BelowFirstFailure(ids, ok) == BelowFirstFailure(ids, ok')
    ensures forall f :: FirstFailure(ids, ok, f) <==> FirstFailure(ids, ok', f)
  {
  }

  lemma SettleableAfter(t: Tables, cfg: Config, pool: string, plan: Plan)
    requires UnsettledIds(t, pool) != {}
    requires Outcome(t, cfg, pool, Lowest(UnsettledIds(t, pool))) == Planned(plan)
    ensures var id := Lowest(UnsettledIds(t, pool)); var t' := Settle(t, pool, id, cfg.reward, plan);
      && Settleable(t, cfg, pool) == Settleable(t', cfg, pool) + {id}
      && id !in Settleable(t', cfg, pool)
      && forall f :: FailsFirst(t, cfg, pool, f) <==> FailsFirst(t', cfg, pool, f)
  {
    var ids, ok := UnsettledIds(t, pool), Good(t, cfg, pool);
    var id := Lowest(ids);
    var t' := Settle(t, pool, id, cfg.reward, plan);
    SettleShrinks(t, pool, id, cfg.reward, plan);
    forall f | f in ids - {id} ensures f in Good(t', cfg, pool) <==> f in ok {
      OutcomesAreIndependent(t, cfg, pool, id, plan, f);
    }
    BelowDependsOnIds(ids - {id}, ok, Good(t', cfg, pool));
    DropLowest(ids, ok);
  }

  /** What settling one block adds to one account. */
  ghost function Earning(shares: map<int, ShareRow>, cfg: Config, pool: string, a: Account): int -> int {
    id =>
      if id in shares && PlanSettlement(shares, cfg, pool, id).Planned? then
        var alloc := PlanSettlement(shares, cfg, pool, id).plan.alloc;
        if a.pool == pool && a.worker in Paid(alloc) then alloc[a.worker] else 0
      else 0
  }

  /** One settlement row per block, as planned; the older rows are untouched. */
  ghost predicate RowsWritten(t: Tables, cfg: Config, pool: string, ids: set<int>, t': Tables) {
    && t'.settlements.Keys == t.settlements.Keys + ids
    && (forall id :: id in t.settlements && id !in ids ==> t'.settlements[id] == t.settlements[id])
    && forall id :: id in ids ==> RowWritten(t, cfg, pool, id, t')
  }

  ghost predicate RowWritten(t: Tables, cfg: Config, pool: string, id: int, t': Tables) {
    && id in t.shares && PlanSettlement(t.shares, cfg, pool, id).Planned? && id in t'.settlements
    && t'.settlements[id] == SettlementOf(t.shares[id], cfg.reward, pool, PlanSettlement(t.shares, cfg, pool, id).plan)
  }

  /** The blocks' states are settled; the other states are untouched. */
  ghost predicate StatesWritten(t: Tables, ids: set<int>, t': Tables) {
    && t'.states.Keys == t.states.Keys
    && forall id :: id in t.states ==> t'.states[id] == if id in ids then t.states[id].(status := Settled) else t.states[id]
  }

  /** Every account has what it had and its earnings from these blocks. */
  ghost predicate EarningsCredited(t: Tables, cfg: Config, pool: string, ids: set<int>, t': Tables) {
    forall a :: BalanceAt(t'.balances, a) == BalanceAt(t.balances, a) + Sum(ids, Earning(t.shares, cfg, pool, a))
  }

  /** What a drain achieves. It settles exactly the blocks below the first one that cannot be settled: their rows, their
      states and every account's earnings from them are written, and nothing else. It counts them, and reports an error
      if and only if there is a block that cannot be settled. */
  ghost predicate DrainIs(t: Tables, cfg: Config, pool: string, d: Drained) {
    var ids := Settleable(t, cfg, pool);
    && d.count == |ids|
    && UnsettledIds(d.t, pool) == UnsettledIds(t, pool) - ids
    && RowsWritten(t, cfg, pool, ids, d.t)
    && StatesWritten(t, ids, d.t)
    && EarningsCredited(t, cfg, pool, ids, d.t)
    && d.t.shares == t.shares && d.t.batches == t.batches
    && StopReason(t, cfg, pool, d.error)
  }

  ghost predicate FailsFirst(t: Tables, cfg: Config, pool: string, f: int) {
    FirstFailure(UnsettledIds(t, pool), Good(t, cfg, pool), f)
  }

  /** The error is the one of the lowest block that cannot be settled; there is none if every block can. */
  ghost predicate StopReason(t: Tables, cfg: Config, pool: string, error: Option<PlanError>) {
    match error
    case None => forall f :: !FailsFirst(t, cfg, pool, f)
    case Some(e) => exists f :: FailsFirst(t, cfg, pool, f) && Outcome(t, cfg, pool, f) == Refused(e)
  }

  lemma {:induction false} DrainSettlesUpToFirstFailure(t: Tables, cfg: Config, pool: string)
    ensures DrainIs(t, cfg, pool, Drain(t, cfg, pool))
    decreases UnsettledIds(t, pool)
  {
    var ids, ok := UnsettledIds(t, pool), Good(t, cfg, pool);
    if ids == {} {
      assert Settleable(t, cfg, pool) == {};
    } else {
      var id := Lowest(ids);
      match Outcome(t, cfg, pool, id)
      case Refused(e) =>
        assert id !in ok && FailsFirst(t, cfg, pool, id);
        assert Settleable(t, cfg, pool) == {};
      case Planned(plan) =>
        var t' := Settle(t, pool, id, cfg.reward, plan);
        SettleShrinks(t, pool, id, cfg.reward, plan);
        DrainSettlesUpToFirstFailure(t', cfg, pool);
        DrainOneMore(t, cfg, pool, plan, Drain(t', cfg, pool));
    }
  }

  lemma DrainOneMore(t: Tables, cfg: Config, pool: string, plan: Plan, rest: Drained)
    requires UnsettledIds(t, pool) != {}
    requires Outcome(t, cfg, pool, Lowest(UnsettledIds(t, pool))) == Planned(plan)
    requires DrainIs(Settle(t, pool, Lowest(UnsettledIds(t, pool)), cfg.reward, plan), cfg, pool, rest)
    ensures DrainIs(t, cfg, pool, rest.(count := rest.count + 1))
  {
    var id := Lowest(UnsettledIds(t, pool));
    var t' := Settle(t, pool, id, cfg.reward, plan);
    var ids := Settleable(t', cfg, pool);
    SettleableAfter(t, cfg, pool, plan);
    SettleShrinks(t, pool, id, cfg.reward, plan);
    StopReasonCarriesOver(t, cfg, pool, plan, rest.error);
    OneMore(UnsettledIds(t, pool), ids, id);
    RowsOneMore(t, cfg, pool, id, plan, ids, rest.t);
    StatesOneMore(t, pool, id, cfg.reward, plan, ids, rest.t);
    EarningsOneMore(t, cfg, pool, id, plan, ids, rest.t);
  }

  lemma OneMore(ids: set<int>, settled: set<int>, id: int)
    requires id !in settled
    ensures |settled + {id}| == |settled| + 1
    ensures ids - {id} - settled == ids - (settled + {id})
  {
  }

  lemma RowsOneMore(t: Tables, cfg: Config, pool: string, id: int, plan: Plan, ids: set<int>, last: Tables)
    requires id in t.shares && Outcome(t, cfg, pool, id) == Planned(plan) && id !in ids
    requires RowsWritten(Settle(t, pool, id, cfg.reward, plan), cfg, pool, ids, last)
    ensures RowsWritten(t, cfg, pool, ids + {id}, last)
  {
    var t' := Settle(t, pool, id, cfg.reward, plan);
    assert t'.settlements.Keys == t.settlements.Keys + {id};
    forall k | k in ids ensures RowWritten(t, cfg, pool, k, last) {
      assert RowWritten(t', cfg, pool, k, last);
    }
    assert id in t'.settlements && last.settlements[id] == t'.settlements[id];
  }

  lemma StatesOneMore(t: Tables, pool: string, id: int, reward: int, plan: Plan, ids: set<int>, last: Tables)
    requires id in UnsettledIds(t, pool) && StatesWritten(Settle(t, pool, id, reward, plan), ids, last)
    ensures StatesWritten(t, ids + {id}, last)
  {
    var t' := Settle(t, pool, id, reward, plan);
    assert t'.states == t.states[id := t.states[id].(status := Settled)];
  }

  lemma EarningsOneMore(t: Tables, cfg: Config, pool: string, id: int, plan: Plan, ids: set<int>, last: Tables)
    requires id in t.shares && Outcome(t, cfg, pool, id) == Planned(plan) && id !in ids
    requires EarningsCredited(Settle(t, pool, id, cfg.reward, plan), cfg, pool, ids, last)
    ensures EarningsCredited(t, cfg, pool, ids + {id}, last)
  {
    var t' := Settle(t, pool, id, cfg.reward, plan);
    forall a ensures BalanceAt(last.balances, a) == BalanceAt(t.balances, a) + Sum(ids + {id}, Earning(t.shares, cfg, pool, a)) {
      var earning := Earning(t.shares, cfg, pool, a);
      SumInsert(ids, id, earning);
      CreditAt(t.balances, pool, plan.alloc, a);
      assert BalanceAt(t'.balances, a) == BalanceAt(t.balances, a) + earning(id);
      assert BalanceAt(last.balances, a) == BalanceAt(t'.balances, a) + Sum(ids, Earning(t'.shares, cfg, pool, a));
    }
  }

  lemma CreditAt(balances: map<Account, int>, pool: string, alloc: map<string, int>, a: Account)
    ensures BalanceAt(Credit(balances, pool, alloc), a)
      == BalanceAt(balances, a) + if a.pool == pool && a.worker in Paid(alloc) then alloc[a.worker] else 0
  {
    assert a == Account(a.pool, a.worker);
  }

  lemma StopReasonCarriesOver(t: Tables, cfg: Config, pool: string, plan: Plan, error: Option<PlanError>)
    requires UnsettledIds(t, pool) != {}
    requires Outcome(t, cfg, pool, Lowest(UnsettledIds(t, pool))) == Planned(plan)
    requires StopReason(Settle(t, pool, Lowest(UnsettledIds(t, pool)), cfg.reward, plan), cfg, pool, error)
    ensures StopReason(t, cfg, pool, error)
  {
    var id := Lowest(UnsettledIds(t, pool));
    var t' := Settle(t, pool, id, cfg.reward, plan);
    SettleableAfter(t, cfg, pool, plan);
    SettleShrinks(t, pool, id, cfg.reward, plan);
    if error.Some? {
      var f :| FailsFirst(t', cfg, pool, f) && Outcome(t', cfg, pool, f) == Refused(error.value);
      OutcomesAreIndependent(t, cfg, pool, id, plan, f);
      assert FailsFirst(t, cfg, pool, f);
    }
  }

  lemma AllSettleable(t: Tables, cfg: Config, pool: string)
    requires forall id :: id in UnsettledIds(t, pool) ==> Succeeds(t, cfg, pool, id)
    ensures Settleable(t, cfg, pool) == UnsettledIds(t, pool)
    ensures forall f :: !FailsFirst(t, cfg, pool, f)
  {
    assert forall id :: id in UnsettledIds(t, pool) ==> id in Good(t, cfg, pool);
  }

  /** If every mature block can be settled, all of them are. */
  lemma DrainSettlesEverything(t: Tables, cfg: Config, pool: string)
    requires forall id :: id in UnsettledIds(t, pool) ==> Succeeds(t, cfg, pool, id)
    ensures var d := Drain(t, cfg, pool);
      d.error == None && d.count == |UnsettledIds(t, pool)| && UnsettledIds(d.t, pool) == {}
  {
    var d := Drain(t, cfg, pool);
    DrainSettlesUpToFirstFailure(t, cfg, pool);
    AllSettleable(t, cfg, pool);
    NoStopReason(t, cfg, pool, d.error);
    assert UnsettledIds(d.t, pool) == UnsettledIds(t, pool) - UnsettledIds(t, pool);
  }

  lemma NoStopReason(t: Tables, cfg: Config, pool: string, error: Option<PlanError>)
    requires StopReason(t, cfg, pool, error) && forall f :: !FailsFirst(t, cfg, pool, f)
    ensures error == None
  {
  }
}
