/** How each write to the tables moves the per-pool sums. */
module Conservation {
  import opened Sums
  import opened Apportionment
  import opened Database
  import opened Plans

  lemma {:induction false} SumOverAccounts(pool: string, s: set<string>, f: string -> int, g: Account -> int)
    requires forall w :: w in s ==> g(Account(pool, w)) == f(w)
    ensures Sum(Accounts(pool, s), g) == Sum(s, f)
  {
    if s == {} {
      assert Accounts(pool, s) == {};
    } else {
      var w := Pick(s);
      SumOverAccounts(pool, s - {w}, f, g);
      assert Accounts(pool, s) == Accounts(pool, s - {w}) + {Account(pool, w)};
      SumInsert(Accounts(pool, s - {w}), Account(pool, w), g);
    }
  }

  /** The change that `items` makes to the accounts of `pool`. */
  ghost function Change(pool: string, items: map<string, int>): Account -> int {
    (a: Account) => if a.pool == pool && a.worker in items then items[a.worker] else 0
  }

  lemma ChangeSum(pool: string, items: map<string, int>, keys: set<Account>)
    requires forall w :: w in items && items[w] != 0 ==> Account(pool, w) in keys
    ensures Sum(keys, Change(pool, items)) == Amounts(items)
  {
    var touched := set w | w in items && items[w] != 0;
    SumOverAccounts(pool, touched, At(items), Change(pool, items));
    SumExtend(touched, items.Keys, At(items));
    forall a | a in keys - Accounts(pool, touched) ensures Change(pool, items)(a) == 0 {
      assert a == Account(a.pool, a.worker);
    }
    SumExtend(Accounts(pool, touched), keys, Change(pool, items));
  }

  lemma HeldAfterChange(before: map<Account, int>, after: map<Account, int>, p: string, change: Account -> int)
    requires before.Keys <= after.Keys
    requires forall a :: a in after ==>
      after[a] == (if a in before then before[a] else 0) + change(a)
    requires forall a :: change(a) != 0 ==> a.pool == p
    ensures Sum(after.Keys, BalanceOf(after, p)) == Sum(before.Keys, BalanceOf(before, p)) + Sum(after.Keys, change)
  {
    SumPlus(after.Keys, BalanceOf(after, p), BalanceOf(before, p), change);
    SumExtend(before.Keys, after.Keys, BalanceOf(before, p));
  }

  lemma HeldElsewhere(before: map<Account, int>, after: map<Account, int>, p: string)
    requires before.Keys <= after.Keys
    requires forall a :: a in after && a.pool == p ==> a in before && after[a] == before[a]
    ensures Sum(after.Keys, BalanceOf(after, p)) == Sum(before.Keys, BalanceOf(before, p))
  {
    SumCongruence(after.Keys, BalanceOf(after, p), BalanceOf(before, p));
    SumExtend(before.Keys, after.Keys, BalanceOf(before, p));
  }

  ghost function PaidOut(alloc: map<string, int>): map<string, int> {
    map w | w in Paid(alloc) :: alloc[w]
  }

  lemma PaidOutSum(alloc: map<string, int>)
    requires Payers(alloc)
    ensures Amounts(PaidOut(alloc)) == Amounts(alloc)
  {
    assert PaidOut(alloc).Keys == Paid(alloc);
    SumCongruence(Paid(alloc), At(PaidOut(alloc)), At(alloc));
    SumExtend(Paid(alloc), alloc.Keys, At(alloc));
  }

  /** Crediting an allocation raises the pool's balances by exactly its sum, and nobody else's. */
  lemma CreditRaises(balances: map<Account, int>, pool: string, alloc: map<string, int>, p: string)
    requires Payers(alloc)
    ensures var after := Credit(balances, pool, alloc);
      Sum(after.Keys, BalanceOf(after, p))
      == Sum(balances.Keys, BalanceOf(balances, p)) + if p == pool then Amounts(alloc) else 0
  {
    var after := Credit(balances, pool, alloc);
    if p == pool {
      HeldAfterChange(balances, after, p, Change(pool, PaidOut(alloc)));
      ChangeSum(pool, PaidOut(alloc), after.Keys);
      PaidOutSum(alloc);
    } else {
      HeldElsewhere(balances, after, p);
    }
  }

  ghost predicate HasAccounts(balances: map<Account, int>, pool: string, items: map<string, int>) {
    forall w :: w in items ==> Account(pool, w) in balances
  }

  lemma DebitLowers(balances: map<Account, int>, pool: string, items: map<string, int>, p: string)
    requires HasAccounts(balances, pool, items)
    ensures var after := Debit(balances, pool, items);
      Sum(after.Keys, BalanceOf(after, p))
      == Sum(balances.Keys, BalanceOf(balances, p)) - if p == pool then Amounts(items) else 0
  {
    RefillRaises(Debit(balances, pool, items), pool, items, p);
    assert Refill(Debit(balances, pool, items), pool, items) == balances;
  }

  /** Refilling raises the pool's balances by the items, provided every account still exists. */
  lemma RefillRaises(balances: map<Account, int>, pool: string, items: map<string, int>, p: string)
    requires HasAccounts(balances, pool, items)
    ensures var after := Refill(balances, pool, items);
      Sum(after.Keys, BalanceOf(after, p))
      == Sum(balances.Keys, BalanceOf(balances, p)) + if p == pool then Amounts(items) else 0
  {
    var after := Refill(balances, pool, items);
    assert after.Keys == balances.Keys;
    if p == pool {
      HeldAfterChange(balances, after, p, Change(pool, items));
      ChangeSum(pool, items, after.Keys);
    } else {
      HeldElsewhere(balances, after, p);
    }
  }

  lemma CreditedAfter(settlements: map<int, SettlementRow>, id: int, row: SettlementRow, p: string)
    requires id !in settlements
    ensures var after := settlements[id := row];
      Sum(after.Keys, RewardOf(after, p))
      == Sum(settlements.Keys, RewardOf(settlements, p)) + if row.pool == p then row.minerReward else 0
  {
    var after := settlements[id := row];
    assert after.Keys == settlements.Keys + {id};
    SumInsert(settlements.Keys, id, RewardOf(after, p));
    SumCongruence(settlements.Keys, RewardOf(after, p), RewardOf(settlements, p));
  }

  /** Adding a batch row, or replacing one, moves the batch sums by that row alone. */
  lemma BatchesAfter(batches: map<int, BatchRow>, b: int, row: BatchRow, p: string, ss: set<BatchStatus>)
    ensures var after := batches[b := row];
      Sum(after.Keys, ItemsOf(after, p, ss))
      == Sum(batches.Keys, ItemsOf(batches, p, ss)) - ItemsOf(batches, p, ss)(b) + ItemsOf(after, p, ss)(b)
  {
    var after := batches[b := row];
    assert after.Keys == batches.Keys + {b};
    if b in batches {
      assert after.Keys == batches.Keys;
      SumChangeOne(batches.Keys, b, ItemsOf(batches, p, ss), ItemsOf(after, p, ss));
    } else {
      SumInsert(batches.Keys, b, ItemsOf(after, p, ss));
      SumCongruence(batches.Keys, ItemsOf(after, p, ss), ItemsOf(batches, p, ss));
    }
  }
}
