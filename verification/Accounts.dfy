/** Conservation account by account: what each worker was credited is what it has, was sent, or is about to be sent. */
module Accounts {
  import opened Sums
  import opened Apportionment
  import opened Database
  import opened Plans
  import opened Conservation
  import opened Ledger
  import opened LedgerInvariant
  import opened LedgerTheorems

  /** What the committed settlements credited to an account. */
  ghost function CreditedTo(credits: seq<CreditRecord>, a: Account): int {
    if credits == [] then 0
    else
      var c := credits[|credits| - 1];
      CreditedTo(credits[..|credits| - 1], a) + ItemFor(c.pool, c.plan.alloc, a)
  }

  ghost function InBatchesOf(batches: map<int, BatchRow>, a: Account, statuses: set<BatchStatus>): int {
    Sum(batches.Keys, ItemAt(batches, a, statuses))
  }

  ghost predicate AccountOk(credits: seq<CreditRecord>, balances: map<Account, int>, batches: map<int, BatchRow>, a: Account) {
    CreditedTo(credits, a) == BalanceAt(balances, a) + InBatchesOf(batches, a, {Pending, Sent})
  }

  lemma CreditedAppend(credits: seq<CreditRecord>, c: CreditRecord, a: Account)
    ensures CreditedTo(credits + [c], a) == CreditedTo(credits, a) + ItemFor(c.pool, c.plan.alloc, a)
  {
    assert (credits + [c])[..|credits|] == credits;
  }

  lemma CreditAdds(balances: map<Account, int>, pool: string, alloc: map<string, int>, a: Account)
    requires Payers(alloc)
    ensures BalanceAt(Credit(balances, pool, alloc), a) == BalanceAt(balances, a) + ItemFor(pool, alloc, a)
  {
    assert a == Account(a.pool, a.worker);
  }

  lemma RefillAdds(balances: map<Account, int>, pool: string, items: map<string, int>, a: Account)
    requires a.pool == pool && a.worker in items ==> a in balances
    ensures BalanceAt(Refill(balances, pool, items), a) == BalanceAt(balances, a) + ItemFor(pool, items, a)
    ensures BalanceAt(Debit(balances, pool, items), a) == BalanceAt(balances, a) - ItemFor(pool, items, a)
  {
  }

  /** Writing a batch row moves an account's sum by that row alone. */
  lemma RowMoves(batches: map<int, BatchRow>, b: int, row: BatchRow, a: Account, ss: set<BatchStatus>)
    ensures var after := batches[b := row];
      InBatchesOf(after, a, ss) == InBatchesOf(batches, a, ss) - ItemAt(batches, a, ss)(b) + ItemAt(after, a, ss)(b)
  {
    var after := batches[b := row];
    assert after.Keys == batches.Keys + {b};
    if b in batches {
      assert after.Keys == batches.Keys;
      SumChangeOne(batches.Keys, b, ItemAt(batches, a, ss), ItemAt(after, a, ss));
    } else {
      SumInsert(batches.Keys, b, ItemAt(after, a, ss));
      SumCongruence(batches.Keys, ItemAt(after, a, ss), ItemAt(batches, a, ss));
    }
  }

  lemma SettleKeepsAccount(credits: seq<CreditRecord>, t: Tables, c: CreditRecord, a: Account)
    requires AccountOk(credits, t.balances, t.batches, a) && c.block in t.shares && Payers(c.plan.alloc)
    ensures var t' := Settle(t, c.pool, c.block, c.cfg.reward, c.plan); AccountOk(credits + [c], t'.balances, t'.batches, a)
  {
    CreditAdds(t.balances, c.pool, c.plan.alloc, a);
    CreditedAppend(credits, c, a);
  }

  lemma BatchKeepsAccount(credits: seq<CreditRecord>, t: Tables, pool: string, batch: int, items: map<string, int>, a: Account)
    requires AccountOk(credits, t.balances, t.batches, a) && batch !in t.batches && HasAccounts(t.balances, pool, items)
    ensures var t' := OpenBatch(t, pool, batch, items); AccountOk(credits, t'.balances, t'.batches, a)
  {
    assert a == Account(a.pool, a.worker);
    RefillAdds(t.balances, pool, items, a);
    RowMoves(t.batches, batch, BatchRow(pool, Pending, Amounts(items), items), a, {Pending, Sent});
  }

  lemma MarkKeepsAccount(credits: seq<CreditRecord>, t: Tables, pool: string, b: int, a: Account)
    requires AccountOk(credits, t.balances, t.batches, a) && HasBatch(t, pool, b) && t.batches[b].status == Pending
    ensures AccountOk(credits, MarkSent(t, pool, b).balances, MarkSent(t, pool, b).batches, a)
  {
    RowMoves(t.batches, b, t.batches[b].(status := Sent), a, {Pending, Sent});
  }

  lemma RefundKeepsAccount(credits: seq<CreditRecord>, t: Tables, pool: string, b: int, a: Account)
    requires AccountOk(credits, t.balances, t.batches, a) && HasBatch(t, pool, b) && t.batches[b].status == Pending
    requires HasAccounts(t.balances, pool, t.batches[b].items)
    ensures AccountOk(credits, Refund(t, pool, b).balances, Refund(t, pool, b).batches, a)
  {
    assert a == Account(a.pool, a.worker);
    RefillAdds(t.balances, pool, t.batches[b].items, a);
    RowMoves(t.batches, b, t.batches[b].(status := Failed), a, {Pending, Sent});
  }

  /** No other step writes balances, batches or credits. */
  lemma OthersTouchNoMoney(w: World, act: Action)
    requires Enabled(w, act) && !act.SettleCommit? && !act.BatchCommit? && !act.MarkBatchSent? && !act.RefundCommit?
    ensures var w' := Step(w, act);
      w'.credits == w.credits && w'.t.balances == w.t.balances && w'.t.batches == w.t.batches
  {
  }

  /** An engine with a batch: the row is there, pending, and its accounts exist. */
  lemma BatchInHand(w: World, e: nat)
    requires Inv(w) && e in w.engines && HasBatchIn(w.engines[e].phase)
    ensures var g := w.engines[e];
      && HasBatch(w.t, g.pool, g.phase.batch) && w.t.batches[g.phase.batch].status == Pending
      && HasAccounts(w.t.balances, g.pool, w.t.batches[g.phase.batch].items)
  {
    var g := w.engines[e];
    assert PhaseOk(w.t.shares, w.t.batches, w.sends, g);
    assert BatchOk(w.t.balances, w.t.batches[g.phase.batch]);
  }

  lemma PayableHasAccounts(t: Tables, pool: string, minPayout: int, locked: set<string>)
    ensures HasAccounts(t.balances, pool, Payable(t, pool, minPayout, locked))
  {
    AllPayable(t, pool, minPayout, locked);
  }

  lemma SettlementKeepsAccount(w: World, act: Action, a: Account)
    requires Enabled(w, act) && act.SettleCommit? && AccountOk(w.credits, w.t.balances, w.t.batches, a)
    ensures var w' := Step(w, act); AccountOk(w'.credits, w'.t.balances, w'.t.batches, a)
  {
    var g := w.engines[act.e];
    PlanDistributesReward(w.t.shares, g.cfg, g.pool, g.phase.block);
    var plan := PlanSettlement(w.t.shares, g.cfg, g.pool, g.phase.block).plan;
    SettleKeepsAccount(w.credits, w.t, CreditRecord(g.pool, g.phase.block, g.cfg, plan), a);
  }

  lemma PayoutKeepsAccount(w: World, act: Action, a: Account)
    requires Inv(w) && Enabled(w, act) && (act.BatchCommit? || act.MarkBatchSent? || act.RefundCommit?)
    requires AccountOk(w.credits, w.t.balances, w.t.batches, a)
    ensures var w' := Step(w, act); AccountOk(w'.credits, w'.t.balances, w'.t.batches, a)
  {
    var g := w.engines[act.e];
    if act.BatchCommit? {
      PayableHasAccounts(w.t, g.pool, g.cfg.minPayout, act.locked);
      BatchKeepsAccount(w.credits, w.t, g.pool, act.batch, Payable(w.t, g.pool, g.cfg.minPayout, act.locked), a);
    } else {
      BatchInHand(w, act.e);
      if act.MarkBatchSent? {
        MarkKeepsAccount(w.credits, w.t, g.pool, g.phase.batch, a);
      } else {
        RefundKeepsAccount(w.credits, w.t, g.pool, g.phase.batch, a);
      }
    }
  }

  lemma StepKeepsAccount(w: World, act: Action, a: Account)
    requires Inv(w) && Enabled(w, act) && AccountOk(w.credits, w.t.balances, w.t.batches, a)
    ensures var w' := Step(w, act); AccountOk(w'.credits, w'.t.balances, w'.t.batches, a)
  {
    if act.SettleCommit? {
      SettlementKeepsAccount(w, act, a);
    } else if act.BatchCommit? || act.MarkBatchSent? || act.RefundCommit? {
      PayoutKeepsAccount(w, act, a);
    } else {
      OthersTouchNoMoney(w, act);
    }
  }

  lemma {:induction false} RunKeepsAccount(w: World, run: seq<Action>, a: Account)
    requires Inv(w) && ValidRun(w, run) && AccountOk(w.credits, w.t.balances, w.t.batches, a)
    ensures var w' := After(w, run); AccountOk(w'.credits, w'.t.balances, w'.t.batches, a)
    decreases run
  {
    if run != [] {
      StepKeepsAccount(w, run[0], a);
      StepKeepsInv(w, run[0]);
      RunKeepsAccount(Step(w, run[0]), run[1..], a);
    }
  }

  /** In every reachable state and for every account: what all settlements credited to it is its balance plus its items
      in pending and in sent batches. No money moves between accounts. */
  lemma EveryAccountIsConserved(w0: World, run: seq<Action>, w: World, a: Account)
    requires Reachable(w0, run, w)
    ensures CreditedTo(w.credits, a)
      == BalanceAt(w.t.balances, a) + InBatchesOf(w.t.batches, a, {Pending}) + InBatchesOf(w.t.batches, a, {Sent})
  {
    InitInv(w0);
    RunKeepsAccount(w0, run, a);
    SumPlus(w.t.batches.Keys, ItemAt(w.t.batches, a, {Pending, Sent}), ItemAt(w.t.batches, a, {Pending}), ItemAt(w.t.batches, a, {Sent}));
  }

  // ----- what a batch takes -----

  /** A new batch takes from the pool exactly the unlocked balances of at least the minimum, whole; what it takes is at
      least the minimum, is then gone from the balance, and is what the batch owes. Afterwards no unlocked balance of the
      pool is payable, and nothing else changes. */
  lemma BatchTakesThePayable(t: Tables, pool: string, minPayout: int, locked: set<string>, batch: int)
    ensures var items := Payable(t, pool, minPayout, locked); var t' := OpenBatch(t, pool, batch, items);
      && (forall w :: w in items <==>
            Account(pool, w) in t.balances && w !in locked && t.balances[Account(pool, w)] >= minPayout && t.balances[Account(pool, w)] > 0)
      && (forall w :: w in items ==> items[w] == t.balances[Account(pool, w)] && t'.balances[Account(pool, w)] == 0)
      && t'.balances.Keys == t.balances.Keys
      && (forall a :: a in t.balances && !(a.pool == pool && a.worker in items) ==> t'.balances[a] == t.balances[a])
      && (forall a :: a in t'.balances && a.pool == pool && a.worker !in locked ==> t'.balances[a] < minPayout || t'.balances[a] <= 0)
      && t' == t.(balances := t'.balances, batches := t.batches[batch := BatchRow(pool, Pending, Amounts(items), items)])
  {
    var items := Payable(t, pool, minPayout, locked);
    var t' := OpenBatch(t, pool, batch, items);
    forall w | w in items ensures Account(pool, w) in t.balances && items[w] == t.balances[Account(pool, w)] > 0 {
      PayableItems(t, pool, minPayout, locked, w);
    }
    forall a | a in t.balances ensures a == Account(a.pool, a.worker) {
    }
    assert forall a :: a in t.balances && a.pool == pool && a.worker in items ==> t'.balances[a] == 0;
  }
}
