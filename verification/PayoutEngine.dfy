/** The payout engine as it is written: each method reads rows, builds up a transaction in loops and commits it. */
module PayoutEngine {
  import opened Fees
  import opened Addresses
  import opened Apportionment
  import opened Options
  import opened Database
  import opened Draining

  /** The accounting tables, with the sequences that number shares and batches. */
  class LedgerDb {
    var shares: map<int, ShareRow>
    var states: map<int, StateRow>
    var settlements: map<int, SettlementRow>
    var balances: map<Account, int>
    var batches: map<int, BatchRow>
    var nextShare: int
    var nextBatch: int

    function View(): Tables
      reads this
    {
      Tables(shares, states, settlements, balances, batches)
    }

    ghost predicate Valid()
      reads this
    {
      && nextShare >= 1 && (forall id :: id in shares ==> id < nextShare)
      && (forall b :: b in batches ==> b < nextBatch)
    }

    constructor ()
      ensures Valid() && View() == Tables(map[], map[], map[], map[], map[])
    {
      shares, states, settlements, balances, batches := map[], map[], map[], map[], map[];
      nextShare, nextBatch := 1, 1;
    }

    /** InsertAcceptedShare: an empty hash is stored as none. The row is rejected for a non-positive difficulty, or if the
        pool already has the key or the hash. */
    method InsertAcceptedShare(pool: string, worker: string, diff: real, isBlock: bool, key: string, hash: string) returns (ok: bool)
      requires Valid()
      modifies this
      ensures Valid()
      ensures ok <==> diff > 0.0 && forall i :: i in old(shares) && old(shares)[i].pool == pool ==>
        old(shares)[i].key != key && (hash == "" || old(shares)[i].hash != Some(hash))
      ensures var id, row := old(nextShare), ShareRow(pool, worker, diff, isBlock, key, if hash == "" then None else Some(hash));
        && ok == CanInsertShare(old(shares), id, row)
        && View() == if ok then old(View()).(shares := old(shares)[id := row]) else old(View())
    {
      if diff <= 0.0 {
        return false;
      }
      var blockHash := if hash == "" then None else Some(hash);
      var id := nextShare;
      nextShare := nextShare + 1;
      if exists i | i in shares :: shares[i].pool == pool
          && (shares[i].key == key || (blockHash.Some? && shares[i].hash == blockHash)) {
        return false;
      }
      shares := shares[id := ShareRow(pool, worker, diff, isBlock, key, blockHash)];
      return true;
    }
  }

  datatype SettleResult = NoBlock | SettledOne | SettleFailed(error: PlanError)

  /** How the two database writes and the wallet call of one payout attempt went. */
  datatype Fate = Fate(sendSucceeds: bool, markSucceeds: bool, refundSucceeds: bool)

  datatype Attempt = NothingToPay | Attempted(batch: int, amounts: map<string, int>, ok: bool)

  ghost function StatusAfter(row: StateRow, l: Lookup, maturity: int): StateRow {
    match NextStatus(l, maturity)
    case None => row
    case Some(s) => row.(status := s)
  }

  /** The tables after a sync in which the open blocks in `done` have been looked up and updated. */
  ghost function SyncedPart(t: Tables, done: set<int>, lookups: int -> Lookup, maturity: int): Tables {
    t.(states := map id | id in t.states ::
         if id in done then StatusAfter(t.states[id], lookups(id), maturity) else t.states[id])
  }

  /** A whole sync: new blocks are recorded, and every open block of the pool takes the status its lookup implies. */
  ghost function Synced(t: Tables, pool: string, lookups: int -> Lookup, maturity: int): Tables {
    var found := RecordFound(t, pool);
    SyncedPart(found, OpenBlocks(found, pool), lookups, maturity)
  }

  class PayoutEngine {
    const db: LedgerDb
    const pool: string
    const cfg: Config

    constructor (db: LedgerDb, pool: string, cfg: Config)
      ensures this.db == db && this.pool == pool && this.cfg == cfg
    {
      this.db, this.pool, this.cfg := db, pool, cfg;
    }

    method SyncBlockStates(lookups: int -> Lookup)
      requires db.Valid()
      modifies db
      ensures db.Valid() && db.View() == Synced(old(db.View()), pool, lookups, cfg.maturity)
    {
      var found := RecordFound(db.View(), pool);
      db.states := found.states;
      var blocks := OpenBlocks(db.View(), pool);
      var todo := blocks;
      assert SyncedPart(found, {}, lookups, cfg.maturity) == found;
      assert blocks - todo == {};
      while todo != {}
        invariant todo <= blocks
        invariant db.View() == SyncedPart(found, blocks - todo, lookups, cfg.maturity)
        invariant db.nextShare == old(db.nextShare) && db.nextBatch == old(db.nextBatch)
      {
        var id := Lowest(todo);
        ghost var before := db.View();
        var l := lookups(id);
        match NextStatus(l, cfg.maturity) {
          case None =>
          case Some(s) =>
            if id in db.states && db.states[id].pool == pool {
              db.states := db.states[id := db.states[id].(status := s)];
            }
        }
        SyncOneMore(found, blocks - todo, id, lookups, cfg.maturity);
        assert blocks - (todo - {id}) == blocks - todo + {id};
        todo := todo - {id};
      }
      assert blocks - todo == blocks;
    }

    /** Settles the lowest mature unsettled block, or leaves every table as it was. */
    method SettleNextBlock() returns (r: SettleResult)
      requires db.Valid()
      modifies db
      ensures db.Valid()
      ensures var t := old(db.View()); var ids := UnsettledIds(t, pool);
        if ids == {} then r == NoBlock && db.View() == t
        else
          var id := Lowest(ids);
          match Outcome(t, cfg, pool, id)
          case Refused(e) => r == SettleFailed(e) && db.View() == t
          case Planned(plan) => r == SettledOne && db.View() == Settle(t, pool, id, cfg.reward, plan)
    {
      var ids := UnsettledIds(db.View(), pool);
      if ids == {} {
        return NoBlock;
      }
      var id := Lowest(ids);
      var row := db.shares[id];
      var split := SplitReward(cfg.reward, cfg.developerPercent, cfg.poolPercent);
      if !split.Split? {
        return SettleFailed(BadReward);
      }
      var planning := PlanBlock(row, id, split.miners);
      if planning.Refused? {
        return SettleFailed(planning.error);
      }
      var plan := planning.plan;
      var balances := CreditAll(db.balances, plan.alloc);
      if id in db.settlements {
        return SettleFailed(DuplicateSettlement);
      }
      db.balances := balances;
      db.settlements := db.settlements[id := SettlementOf(row, cfg.reward, pool, plan)];
      db.states := db.states[id := db.states[id].(status := Settled)];
      return SettledOne;
    }

    /** The switch over the payout scheme. */
    method PlanBlock(row: ShareRow, id: int, miners: int) returns (p: Planning)
      requires id in db.shares && row == db.shares[id]
      requires SplitReward(cfg.reward, cfg.developerPercent, cfg.poolPercent).Split?
      requires miners == SplitReward(cfg.reward, cfg.developerPercent, cfg.poolPercent).miners
      ensures p == PlanSettlement(db.shares, cfg, pool, id)
    {
      match cfg.scheme {
        case Solo =>
          var winner := PayoutAddress(row.worker);
          if winner == "" {
            return Refused(InvalidWinner);
          }
          p := Planned(Plan(miners, map[winner := miners], id, id, 1, if row.diff > 0.0 then row.diff else 0.0));
        case Lprop =>
          var prev := PreviousBlock(db.shares, pool, id);
          var rows := RoundRows(db.shares, pool, prev, id);
          var weights, counted := GatherWeights(rows);
          if weights == map[] {
            return Refused(NoValidShares);
          }
          var totalWeight := SumWeights(weights);
          var alloc := AllocateByWeight(miners, weights);
          p := Planned(Plan(miners, alloc, prev + 1, id, counted, totalWeight));
        case OtherScheme =>
          p := Refused(UnsupportedScheme);
      }
    }

    /** The loop over the round's shares. */
    method GatherWeights(rows: seq<ShareRow>) returns (weights: map<string, real>, counted: nat)
      ensures weights == WeightsOf(rows) && counted == CountedOf(rows)
    {
      weights, counted := map[], 0;
      for i := 0 to |rows|
        invariant weights == WeightsOf(rows[..i]) && counted == CountedOf(rows[..i])
      {
        WeightsNext(rows, i);
        var address := PayoutAddress(rows[i].worker);
        if address == "" || rows[i].diff <= 0.0 {
          continue;
        }
        weights := weights[address := (if address in weights then weights[address] else 0.0) + rows[i].diff];
        counted := counted + 1;
      }
      assert rows[..|rows|] == rows;
    }

    /** The loop of upserts, over the map in any order. */
    method CreditAll(start: map<Account, int>, alloc: map<string, int>) returns (balances: map<Account, int>)
      ensures balances == Credit(start, pool, alloc)
    {
      balances := start;
      var todo := alloc.Keys;
      CreditNothing(start, pool, alloc);
      while todo != {}
        invariant todo <= alloc.Keys
        invariant balances == Credit(start, pool, alloc - todo)
      {
        var worker :| worker in todo;
        var amount := alloc[worker];
        CreditOneMore(start, pool, alloc, todo, worker);
        todo := todo - {worker};
        if amount <= 0 {
          continue;
        }
        var a := Account(pool, worker);
        balances := balances[a := (if a in balances then balances[a] else 0) + amount];
      }
      assert alloc - todo == alloc;
    }

    /** Settles until no mature block is left or one fails; always terminates. */
    method SettleAllBlocks() returns (count: nat, error: Option<PlanError>)
      requires db.Valid()
      modifies db
      ensures db.Valid()
      ensures Drained(db.View(), count, error) == Drain(old(db.View()), cfg, pool)
    {
      count := 0;
      while true
        invariant db.Valid()
        invariant var d := Drain(db.View(), cfg, pool);
          Drain(old(db.View()), cfg, pool) == d.(count := count + d.count)
        decreases UnsettledIds(db.View(), pool)
      {
        ghost var t := db.View();
        var r := SettleNextBlock();
        match r {
          case SettleFailed(e) =>
            return count, Some(e);
          case NoBlock =>
            return count, None;
          case SettledOne =>
            SettleShrinks(t, pool, Lowest(UnsettledIds(t, pool)), cfg.reward,
              Outcome(t, cfg, pool, Lowest(UnsettledIds(t, pool))).plan);
            count := count + 1;
        }
      }
    }

    /** Opens a batch in one transaction, pays it outside of any, and then marks it sent or refunds it. `locked` are the
        balance rows another transaction holds. */
    method TrySendPayoutBatch(locked: set<string>, fate: Fate) returns (r: Attempt)
      requires db.Valid()
      modifies db
      ensures db.Valid()
      ensures var t, b := old(db.View()), old(db.nextBatch);
        var items := Payable(t, pool, cfg.minPayout, locked);
        if items == map[] then r == NothingToPay && db.View() == t
        else
          && r == Attempted(b, items, fate.sendSucceeds && fate.markSucceeds)
          && db.View() == AfterSend(OpenBatch(t, pool, b, items), pool, b, fate)
    {
      var selected := Payable(db.View(), pool, cfg.minPayout, locked);
      if selected == map[] {
        return NothingToPay;
      }
      var batch := db.nextBatch;
      var total, items, balances := DebitAll(db.balances, selected);
      db.balances := balances;
      db.batches := db.batches[batch := BatchRow(pool, Pending, total, items)];
      db.nextBatch := batch + 1;
      r := Attempted(batch, selected, fate.sendSucceeds && fate.markSucceeds);
      if !fate.sendSucceeds {
        MarkBatchFailedAndRefund(batch, fate.refundSucceeds);
      } else if fate.markSucceeds {
        db.batches := db.batches[batch := db.batches[batch].(status := Sent)];
      }
    }

    /** The loop that inserts the items and debits the balances. */
    method DebitAll(start: map<Account, int>, selected: map<string, int>)
      returns (total: int, items: map<string, int>, balances: map<Account, int>)
      requires forall w :: w in selected ==> Account(pool, w) in start
      ensures items == selected && total == Amounts(selected)
      ensures balances == Debit(start, pool, selected)
    {
      total, items, balances := 0, map[], start;
      var todo := selected.Keys;
      assert selected - todo == map[];
      assert Debit(start, pool, map[]) == start;
      while todo != {}
        invariant todo <= selected.Keys
        invariant items == selected - todo && total == Amounts(items)
        invariant balances == Debit(start, pool, items)
      {
        var worker :| worker in todo;
        var amount := selected[worker];
        KeepItem(selected, todo, worker);
        DebitOneMore(start, pool, items, worker, amount);
        AmountsInsert(items, worker, amount);
        items := items[worker := amount];
        balances := balances[Account(pool, worker) := balances[Account(pool, worker)] - amount];
        total := total + amount;
        todo := todo - {worker};
      }
      assert selected - todo == selected;
    }

    /** Gives the items back, unless the transaction does not commit. */
    method MarkBatchFailedAndRefund(batch: int, commits: bool)
      requires db.Valid()
      modifies db
      ensures db.Valid() && db.nextBatch == old(db.nextBatch) && db.nextShare == old(db.nextShare)
      ensures db.View() == if commits then Refund(old(db.View()), pool, batch) else old(db.View())
    {
      var items: map<string, int> := map[];
      if batch in db.batches && db.batches[batch].pool == pool {
        items := db.batches[batch].items;
      }
      var balances := RefillAll(db.balances, items);
      if !commits {
        return;
      }
      assert Refill(db.balances, pool, map[]) == db.balances;
      db.balances := balances;
      if batch in db.batches && db.batches[batch].pool == pool {
        db.batches := db.batches[batch := db.batches[batch].(status := BatchStatus.Failed)];
      }
    }

    /** The loop of refunds: only existing balance rows are updated. */
    method RefillAll(start: map<Account, int>, items: map<string, int>) returns (balances: map<Account, int>)
      ensures balances == Refill(start, pool, items)
    {
      balances := start;
      var todo := items.Keys;
      assert items - todo == map[];
      assert Refill(start, pool, map[]) == start;
      while todo != {}
        invariant todo <= items.Keys
        invariant balances == Refill(start, pool, items - todo)
      {
        var worker :| worker in todo;
        RefillOneMore(start, pool, items - todo, worker, items[worker]);
        assert (items - todo)[worker := items[worker]] == items - (todo - {worker});
        todo := todo - {worker};
        var a := Account(pool, worker);
        if a in balances {
          balances := balances[a := balances[a] + items[worker]];
        }
      }
      assert items - todo == items;
    }
  }

  ghost function AfterSend(t: Tables, pool: string, batch: int, fate: Fate): Tables {
    if !fate.sendSucceeds then (if fate.refundSucceeds then Refund(t, pool, batch) else t)
    else if fate.markSucceeds then MarkSent(t, pool, batch)
    else t
  }

  lemma WeightsNext(rows: seq<ShareRow>, i: nat)
    requires i < |rows|
    ensures WeightsOf(rows[..i + 1]) == AddWeight(WeightsOf(rows[..i]), rows[i])
    ensures CountedOf(rows[..i + 1]) == CountedOf(rows[..i]) + if Counts(rows[i]) then 1 else 0
  {
    assert rows[..i + 1][..i] == rows[..i];
  }

  lemma KeepItem(m: map<string, int>, todo: set<string>, k: string)
    requires k in todo && k in m
    ensures k !in m - todo && m - (todo - {k}) == (m - todo)[k := m[k]]
  {
  }

  lemma DebitOneMore(start: map<Account, int>, pool: string, items: map<string, int>, w: string, amount: int)
    requires w !in items && Account(pool, w) in start
    ensures var a := Account(pool, w); var before := Debit(start, pool, items);
      Debit(start, pool, items[w := amount]) == before[a := before[a] - amount]
  {
  }

  lemma RefillOneMore(start: map<Account, int>, pool: string, items: map<string, int>, w: string, amount: int)
    requires w !in items
    ensures var a := Account(pool, w); var before := Refill(start, pool, items);
      Refill(start, pool, items[w := amount])
      == if a in before then before[a := before[a] + amount] else before
  {
  }

  lemma RefillUndoesDebit(balances: map<Account, int>, pool: string, items: map<string, int>)
    ensures Refill(Debit(balances, pool, items), pool, items) == balances
  {
  }

  /** A refund undoes its batch: every balance of every pool is back to what it was, and the failed batch stays on record. */
  lemma RefundUndoesBatch(t: Tables, pool: string, batch: int, items: map<string, int>)
    requires batch !in t.batches
    ensures Refund(OpenBatch(t, pool, batch, items), pool, batch)
      == t.(batches := t.batches[batch := BatchRow(pool, BatchStatus.Failed, Amounts(items), items)])
  {
    RefillUndoesDebit(t.balances, pool, items);
  }

  lemma SyncOneMore(t: Tables, done: set<int>, id: int, lookups: int -> Lookup, maturity: int)
    requires id in t.states && id !in done
    ensures SyncedPart(t, done + {id}, lookups, maturity)
      == match NextStatus(lookups(id), maturity)
         case None => SyncedPart(t, done, lookups, maturity)
         case Some(s) => SetStatus(SyncedPart(t, done, lookups, maturity), t.states[id].pool, id, s)
  {
    var part := SyncedPart(t, done, lookups, maturity);
    var more := SyncedPart(t, done + {id}, lookups, maturity);
    match NextStatus(lookups(id), maturity)
    case None => assert more.states == part.states;
    case Some(s) => assert more.states == part.states[id := part.states[id].(status := s)];
  }

  lemma CreditNothing(start: map<Account, int>, pool: string, alloc: map<string, int>)
    ensures Credit(start, pool, alloc - alloc.Keys) == start
  {
    assert alloc - alloc.Keys == map[];
    assert Credit(start, pool, map[]) == start;
  }

  lemma CreditOneMore(start: map<Account, int>, pool: string, alloc: map<string, int>, todo: set<string>, w: string)
    requires w in todo && w in alloc
    ensures var before := Credit(start, pool, alloc - todo); var a := Account(pool, w);
      Credit(start, pool, alloc - (todo - {w}))
      == if alloc[w] <= 0 then before else before[a := (if a in before then before[a] else 0) + alloc[w]]
  {
    var part, more := alloc - todo, alloc - (todo - {w});
    assert more == part[w := alloc[w]];
    if alloc[w] <= 0 {
      assert Paid(more) == Paid(part);
    } else {
      assert Paid(more) == Paid(part) + {w};
      assert Accounts(pool, Paid(more)) == Accounts(pool, Paid(part)) + {Account(pool, w)};
    }
  }
}
