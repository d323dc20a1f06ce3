/** What every step of every engine keeps, and so every run. */
module LedgerInvariant {
  import opened Sums
  import opened Apportionment
  import opened Database
  import opened Plans
  import opened Conservation
  import opened Ledger

  // ----- the invariant -----

  ghost predicate SharesOk(shares: map<int, ShareRow>) {
    && (forall i :: i in shares ==> i >= 1 && shares[i].diff > 0.0)
    && (forall i, j :: i in shares && j in shares && i < j && shares[i].pool == shares[j].pool ==>
          shares[i].key != shares[j].key && (shares[j].hash.Some? ==> shares[i].hash != shares[j].hash))
  }

  ghost predicate StatesOk(shares: map<int, ShareRow>, states: map<int, StateRow>) {
    forall id :: id in states ==> IsBlockOf(shares, states[id].pool, id)
  }

  ghost predicate BalancesOk(balances: map<Account, int>) {
    forall a :: a in balances ==> balances[a] >= 0
  }

  /** The batch's total is the sum of its positive items, and every item's balance row exists. */
  ghost predicate BatchOk(balances: map<Account, int>, row: BatchRow) {
    && row.total == Amounts(row.items)
    && (forall w :: w in row.items ==> row.items[w] > 0)
    && HasAccounts(balances, row.pool, row.items)
  }

  ghost predicate BatchesOk(balances: map<Account, int>, batches: map<int, BatchRow>) {
    forall b :: b in batches ==> BatchOk(balances, batches[b])
  }

  /** Conservation of money in every pool. */
  ghost predicate Conserved(t: Tables) {
    forall p :: ConservedIn(t, p)
  }

  ghost predicate ConservedIn(t: Tables, p: string) {
    Credited(t, p) == Held(t, p) + InBatches(t, p, {Pending, Sent})
  }

  /** A batch was passed to SendMany at most once; what it was paid agrees with its status. */
  ghost predicate SendOkFor(batches: map<int, BatchRow>, b: int, r: SendRecord) {
    && b in batches && batches[b].pool == r.pool && r.calls == 1
    && (r.paid == 0 || r.paid == batches[b].total)
    && (batches[b].status == Failed ==> r.paid == 0)
  }

  ghost predicate SendsOk(batches: map<int, BatchRow>, sends: map<int, SendRecord>) {
    && (forall b :: b in sends ==> SendOkFor(batches, b, sends[b]))
    && (forall b :: b in batches && batches[b].status == Sent ==> b in sends && sends[b].paid == batches[b].total)
  }

  ghost predicate HasBatchIn(phase: Phase) {
    phase.Sending? || phase.Marking? || phase.Refunding?
  }

  ghost predicate PhaseOk(shares: map<int, ShareRow>, batches: map<int, BatchRow>, sends: map<int, SendRecord>, g: Engine) {
    && (g.phase.Settling? ==> IsBlockOf(shares, g.pool, g.phase.block))
    && (HasBatchIn(g.phase) ==>
          && g.phase.batch in batches && batches[g.phase.batch].pool == g.pool
          && batches[g.phase.batch].status == Pending)
    && (g.phase.Sending? ==> batches[g.phase.batch].items == g.phase.amounts && g.phase.batch !in sends)
    && (g.phase.Marking? ==> g.phase.batch in sends && sends[g.phase.batch].paid == batches[g.phase.batch].total)
    && (g.phase.Refunding? ==> g.phase.batch in sends && sends[g.phase.batch].paid == 0)
  }

  ghost predicate EnginesOk(shares: map<int, ShareRow>, batches: map<int, BatchRow>, sends: map<int, SendRecord>,
                            engines: map<nat, Engine>) {
    && (forall e :: e in engines ==> PhaseOk(shares, batches, sends, engines[e]))
    && (forall e, f :: e in engines && f in engines && e != f && HasBatchIn(engines[e].phase) && HasBatchIn(engines[f].phase)
          ==> engines[e].phase.batch != engines[f].phase.batch)
  }

  /** A settlement row is exactly what planning the block again, on the shares of today, would write. */
  ghost predicate Audited(shares: map<int, ShareRow>, settlements: map<int, SettlementRow>, c: CreditRecord) {
    && IsBlockOf(shares, c.pool, c.block)
    && PlanSettlement(shares, c.cfg, c.pool, c.block) == Planned(c.plan)
    && c.block in settlements
    && settlements[c.block] == SettlementOf(shares[c.block], c.cfg.reward, c.pool, c.plan)
  }

  ghost predicate CreditsOk(shares: map<int, ShareRow>, settlements: map<int, SettlementRow>, credits: seq<CreditRecord>) {
    && (forall i :: 0 <= i < |credits| ==> Audited(shares, settlements, credits[i]))
    && (forall i, j :: 0 <= i < j < |credits| ==> credits[i].block != credits[j].block)
    && (forall id :: id in settlements ==> exists i :: 0 <= i < |credits| && credits[i].block == id)
  }

  ghost predicate Inv(w: World) {
    && SharesOk(w.t.shares)
    && StatesOk(w.t.shares, w.t.states)
    && BalancesOk(w.t.balances)
    && BatchesOk(w.t.balances, w.t.batches)
    && Conserved(w.t)
    && SendsOk(w.t.batches, w.sends)
    && EnginesOk(w.t.shares, w.t.batches, w.sends, w.engines)
    && CreditsOk(w.t.shares, w.t.settlements, w.credits)
  }

  lemma InitInv(w: World)
    requires Init(w)
    ensures Inv(w)
  {
  }

  // ----- every step keeps it -----

  lemma InsertKeepsInv(w: World, a: Action)
    requires Inv(w) && a.InsertShare? && Enabled(w, a)
    ensures Inv(Step(w, a))
  {
    var shares, later := w.t.shares, w.t.shares[a.id := a.row];
    forall i | 0 <= i < |w.credits| ensures Audited(later, w.t.settlements, w.credits[i]) {
      var c := w.credits[i];
      assert AgreeUpTo(shares, later, c.pool, c.block);
      PlanDependsOnClosedRound(shares, later, c.cfg, c.pool, c.block);
    }
    SameMoney(w.t, Step(w, a).t);
  }

  /** Steps that touch only block_states and the engine's own phase. */
  lemma StatesOnly(w: World, states: map<int, StateRow>, e: nat, phase: Phase)
    requires Inv(w) && e in w.engines && StatesOk(w.t.shares, states)
    requires !HasBatchIn(phase) && (phase.Settling? ==> IsBlockOf(w.t.shares, w.engines[e].pool, phase.block))
    ensures Inv(World(w.t.(states := states), w.engines[e := w.engines[e].(phase := phase)], w.credits, w.sends))
  {
    SameMoney(w.t, w.t.(states := states));
  }

  lemma SameMoney(t: Tables, t': Tables)
    requires Conserved(t) && t'.settlements == t.settlements && t'.balances == t.balances && t'.batches == t.batches
    ensures Conserved(t')
  {
    forall p ensures ConservedIn(t', p) {
      assert ConservedIn(t, p);
    }
  }

  lemma StateStepKeepsInv(w: World, a: Action)
    requires Inv(w) && (a.SyncInsert? || a.SyncSelect? || a.SyncUpdate? || a.SettleSelect? || a.Stop?) && Enabled(w, a)
    ensures Inv(Step(w, a))
  {
    var g := w.engines[a.e];
    var t' := NewTables(w.t, g, a);
    StateStepTables(w.t, g, a);
    StatesOnly(w, t'.states, a.e, NewPhase(w.t, g, a));
  }

  lemma StateStepTables(t: Tables, g: Engine, a: Action)
    requires StatesOk(t.shares, t.states)
    requires (a.SyncInsert? || a.SyncSelect? || a.SyncUpdate? || a.SettleSelect? || a.Stop?) && CanStep(t, g, a)
    ensures var t' := NewTables(t, g, a); t' == t.(states := t'.states) && StatesOk(t.shares, t'.states)
  {
  }

  lemma CreditKeepsBalances(balances: map<Account, int>, batches: map<int, BatchRow>, pool: string, alloc: map<string, int>)
    requires Payers(alloc) && BalancesOk(balances) && BatchesOk(balances, batches)
    ensures BalancesOk(Credit(balances, pool, alloc)) && BatchesOk(Credit(balances, pool, alloc), batches)
  {
  }

  lemma SettleConserves(t: Tables, pool: string, id: int, reward: int, plan: Plan)
    requires Conserved(t) && id in t.shares && id !in t.settlements
    requires Payers(plan.alloc) && Amounts(plan.alloc) == plan.minerReward
    ensures Conserved(Settle(t, pool, id, reward, plan))
  {
    var t' := Settle(t, pool, id, reward, plan);
    forall p ensures ConservedIn(t', p) {
      assert ConservedIn(t, p);
      CreditRaises(t.balances, pool, plan.alloc, p);
      CreditedAfter(t.settlements, id, SettlementOf(t.shares[id], reward, pool, plan), p);
    }
  }

  lemma NewCreditKeepsHistory(shares: map<int, ShareRow>, settlements: map<int, SettlementRow>, credits: seq<CreditRecord>,
                              c: CreditRecord)
    requires CreditsOk(shares, settlements, credits) && c.block !in settlements
    requires IsBlockOf(shares, c.pool, c.block) && PlanSettlement(shares, c.cfg, c.pool, c.block) == Planned(c.plan)
    ensures CreditsOk(shares, settlements[c.block := SettlementOf(shares[c.block], c.cfg.reward, c.pool, c.plan)], credits + [c])
  {
    var settlements' := settlements[c.block := SettlementOf(shares[c.block], c.cfg.reward, c.pool, c.plan)];
    var credits' := credits + [c];
    forall i | 0 <= i < |credits'| ensures Audited(shares, settlements', credits'[i]) {
      assert i < |credits| ==> Audited(shares, settlements, credits[i]);
    }
    forall k | k in settlements' ensures exists i :: 0 <= i < |credits'| && credits'[i].block == k {
      if k == c.block {
        assert credits'[|credits|].block == k;
      } else {
        var i :| 0 <= i < |credits| && credits[i].block == k;
        assert credits'[i].block == k;
      }
    }
  }

  lemma SettleKeepsInv(w: World, a: Action)
    requires Inv(w) && a.SettleCommit? && Enabled(w, a)
    ensures Inv(Step(w, a))
  {
    var g, t := w.engines[a.e], w.t;
    var id := g.phase.block;
    var plan := PlanSettlement(t.shares, g.cfg, g.pool, id).plan;
    PlanDistributesReward(t.shares, g.cfg, g.pool, id);
    BlockOfSettling(w, a.e);
    NewCreditKeepsHistory(t.shares, t.settlements, w.credits, CreditRecord(g.pool, id, g.cfg, plan));
    SettledWorldInv(w, a.e, plan, w.credits + [CreditRecord(g.pool, id, g.cfg, plan)]);
  }

  lemma BlockOfSettling(w: World, e: nat)
    requires Inv(w) && e in w.engines && w.engines[e].phase.Settling?
    ensures IsBlockOf(w.t.shares, w.engines[e].pool, w.engines[e].phase.block)
  {
    assert PhaseOk(w.t.shares, w.t.batches, w.sends, w.engines[e]);
  }

  lemma SettledWorldInv(w: World, e: nat, plan: Plan, credits: seq<CreditRecord>)
    requires Inv(w) && e in w.engines && w.engines[e].phase.Settling?
    requires w.engines[e].phase.block in w.t.shares && w.engines[e].phase.block !in w.t.settlements
    requires Payers(plan.alloc) && Amounts(plan.alloc) == plan.minerReward
    requires var g, id := w.engines[e], w.engines[e].phase.block;
      CreditsOk(w.t.shares, w.t.settlements[id := SettlementOf(w.t.shares[id], g.cfg.reward, g.pool, plan)], credits)
    ensures var g := w.engines[e];
      Inv(World(Settle(w.t, g.pool, g.phase.block, g.cfg.reward, plan), w.engines[e := g.(phase := Idle)], credits, w.sends))
  {
    var g, t := w.engines[e], w.t;
    SettleConserves(t, g.pool, g.phase.block, g.cfg.reward, plan);
    CreditKeepsBalances(t.balances, t.batches, g.pool, plan.alloc);
    BackToIdle(t.shares, t.batches, w.sends, w.engines, e);
    SettleStates(t, g.pool, g.phase.block, g.cfg.reward, plan);
  }

  lemma SettleStates(t: Tables, pool: string, id: int, reward: int, plan: Plan)
    requires StatesOk(t.shares, t.states) && id in t.shares
    ensures StatesOk(t.shares, Settle(t, pool, id, reward, plan).states)
  {
  }

  lemma BackToIdle(shares: map<int, ShareRow>, batches: map<int, BatchRow>, sends: map<int, SendRecord>,
                   engines: map<nat, Engine>, e: nat)
    requires EnginesOk(shares, batches, sends, engines) && e in engines
    ensures EnginesOk(shares, batches, sends, engines[e := engines[e].(phase := Idle)])
  {
  }

  lemma PayableItems(t: Tables, pool: string, minPayout: int, locked: set<string>, w: string)
    requires w in Payable(t, pool, minPayout, locked)
    ensures Account(pool, w) in t.balances
    ensures Payable(t, pool, minPayout, locked)[w] == t.balances[Account(pool, w)] > 0
  {
    var acc :| acc in t.balances && acc.pool == pool && acc.worker == w;
    assert acc == Account(pool, w);
  }

  /** Every item is a whole positive balance. */
  ghost predicate TakesWhole(balances: map<Account, int>, pool: string, items: map<string, int>) {
    forall w :: w in items ==> Account(pool, w) in balances && items[w] == balances[Account(pool, w)] > 0
  }

  lemma AllPayable(t: Tables, pool: string, minPayout: int, locked: set<string>)
    ensures TakesWhole(t.balances, pool, Payable(t, pool, minPayout, locked))
  {
    forall w | w in Payable(t, pool, minPayout, locked)
      ensures Account(pool, w) in t.balances && Payable(t, pool, minPayout, locked)[w] == t.balances[Account(pool, w)] > 0
    {
      PayableItems(t, pool, minPayout, locked, w);
    }
  }

  lemma OpenBatchConserves(t: Tables, pool: string, batch: int, items: map<string, int>)
    requires Conserved(t) && HasAccounts(t.balances, pool, items) && batch !in t.batches
    ensures Conserved(OpenBatch(t, pool, batch, items))
  {
    var t' := OpenBatch(t, pool, batch, items);
    forall p ensures ConservedIn(t', p) {
      assert ConservedIn(t, p);
      DebitLowers(t.balances, pool, items, p);
      BatchesAfter(t.batches, batch, BatchRow(pool, Pending, Amounts(items), items), p, {Pending, Sent});
    }
  }

  /** Each selected balance is debited by its whole amount, so none goes negative. */
  lemma DebitKeepsBalances(balances: map<Account, int>, batches: map<int, BatchRow>, pool: string, items: map<string, int>)
    requires BalancesOk(balances) && BatchesOk(balances, batches)
    requires forall w :: w in items ==> Account(pool, w) in balances && items[w] == balances[Account(pool, w)]
    ensures BalancesOk(Debit(balances, pool, items)) && BatchesOk(Debit(balances, pool, items), batches)
  {
    forall a | a in balances ensures Debit(balances, pool, items)[a] >= 0 {
      assert a == Account(a.pool, a.worker);
    }
  }

  lemma EnginesAfterBatch(shares: map<int, ShareRow>, batches: map<int, BatchRow>, sends: map<int, SendRecord>,
                          engines: map<nat, Engine>, e: nat, batch: int, items: map<string, int>)
    requires EnginesOk(shares, batches, sends, engines) && SendsOk(batches, sends)
    requires e in engines && batch !in batches
    ensures var batches' := batches[batch := BatchRow(engines[e].pool, Pending, Amounts(items), items)];
      EnginesOk(shares, batches', sends, engines[e := engines[e].(phase := Sending(batch, items))]) && SendsOk(batches', sends)
  {
    assert batch !in sends;
  }

  lemma BatchKeepsInv(w: World, a: Action)
    requires Inv(w) && a.BatchCommit? && Enabled(w, a)
    ensures Inv(Step(w, a))
  {
    var g, t := w.engines[a.e], w.t;
    AllPayable(t, g.pool, g.cfg.minPayout, a.locked);
    OpenBatchKeepsInv(w, a.e, a.batch, Payable(t, g.pool, g.cfg.minPayout, a.locked));
    BatchStep(w, a);
  }

  lemma BatchStep(w: World, a: Action)
    requires a.BatchCommit? && Enabled(w, a)
    ensures var g := w.engines[a.e]; var items := Payable(w.t, g.pool, g.cfg.minPayout, a.locked);
      Step(w, a) == World(OpenBatch(w.t, g.pool, a.batch, items), w.engines[a.e := g.(phase := Sending(a.batch, items))],
                          w.credits, w.sends)
  {
    var g := w.engines[a.e];
    var items := Payable(w.t, g.pool, g.cfg.minPayout, a.locked);
    assert NewTables(w.t, g, a) == OpenBatch(w.t, g.pool, a.batch, items);
    assert NewPhase(w.t, g, a) == Sending(a.batch, items);
    assert NewCredits(w.credits, w.t, g, a) == w.credits && NewSends(w.sends, w.t, g, a) == w.sends;
  }

  lemma OpenBatchKeepsInv(w: World, e: nat, batch: int, items: map<string, int>)
    requires Inv(w) && e in w.engines && batch !in w.t.batches
    requires TakesWhole(w.t.balances, w.engines[e].pool, items)
    ensures var g := w.engines[e];
      Inv(World(OpenBatch(w.t, g.pool, batch, items), w.engines[e := g.(phase := Sending(batch, items))], w.credits, w.sends))
  {
    var g := w.engines[e];
    OpenBatchConserves(w.t, g.pool, batch, items);
    DebitKeepsBalances(w.t.balances, w.t.batches, g.pool, items);
    EnginesAfterBatch(w.t.shares, w.t.batches, w.sends, w.engines, e, batch, items);
  }

  lemma SendKeepsInv(w: World, a: Action)
    requires Inv(w) && (a.SendOk? || a.SendError?) && Enabled(w, a)
    ensures Inv(Step(w, a))
  {
    var g := w.engines[a.e];
    var b := g.phase.batch;
    assert PhaseOk(w.t.shares, w.t.batches, w.sends, g);
    assert BatchOk(w.t.balances, w.t.batches[b]);
    var r := SendRecord(g.pool, 1, if a.SendOk? then w.t.batches[b].total else 0);
    EnginesAfterSend(w.t.shares, w.t.batches, w.sends, w.engines, a.e, r, if a.SendOk? then Marking(b) else Refunding(b));
  }

  lemma EnginesAfterSend(shares: map<int, ShareRow>, batches: map<int, BatchRow>, sends: map<int, SendRecord>,
                         engines: map<nat, Engine>, e: nat, r: SendRecord, phase: Phase)
    requires EnginesOk(shares, batches, sends, engines) && SendsOk(batches, sends)
    requires e in engines && engines[e].phase.Sending? && engines[e].phase.batch in batches
    requires r.pool == engines[e].pool && r.calls == 1
    requires (phase == Marking(engines[e].phase.batch) && r.paid == batches[engines[e].phase.batch].total)
      || (phase == Refunding(engines[e].phase.batch) && r.paid == 0)
    ensures var sends' := sends[engines[e].phase.batch := r];
      SendsOk(batches, sends') && EnginesOk(shares, batches, sends', engines[e := engines[e].(phase := phase)])
  {
    assert PhaseOk(shares, batches, sends, engines[e]);
  }

  /** Closing a batch, as sent or as failed, leaves the engines and the send records consistent. */
  lemma EnginesAfterClose(shares: map<int, ShareRow>, batches: map<int, BatchRow>, sends: map<int, SendRecord>,
                          engines: map<nat, Engine>, e: nat, s: BatchStatus)
    requires EnginesOk(shares, batches, sends, engines) && SendsOk(batches, sends) && e in engines
    requires (engines[e].phase.Marking? && s == Sent) || (engines[e].phase.Refunding? && s == Failed)
    requires engines[e].phase.batch in batches
    ensures var b := engines[e].phase.batch; var batches' := batches[b := batches[b].(status := s)];
      SendsOk(batches', sends) && EnginesOk(shares, batches', sends, engines[e := engines[e].(phase := Idle)])
  {
    assert PhaseOk(shares, batches, sends, engines[e]);
  }

  lemma MarkConserves(t: Tables, pool: string, b: int)
    requires Conserved(t) && HasBatch(t, pool, b) && t.batches[b].status == Pending
    ensures Conserved(MarkSent(t, pool, b))
  {
    var t' := MarkSent(t, pool, b);
    forall p ensures ConservedIn(t', p) {
      assert ConservedIn(t, p);
      BatchesAfter(t.batches, b, t.batches[b].(status := Sent), p, {Pending, Sent});
    }
  }

  lemma StatusKeepsBatches(balances: map<Account, int>, batches: map<int, BatchRow>, b: int, s: BatchStatus)
    requires BatchesOk(balances, batches) && b in batches
    ensures BatchesOk(balances, batches[b := batches[b].(status := s)])
  {
    assert BatchOk(balances, batches[b]);
  }

  lemma MarkKeepsInv(w: World, a: Action)
    requires Inv(w) && a.MarkBatchSent? && Enabled(w, a)
    ensures Inv(Step(w, a))
  {
    var g, t := w.engines[a.e], w.t;
    assert PhaseOk(t.shares, t.batches, w.sends, g);
    MarkConserves(t, g.pool, g.phase.batch);
    StatusKeepsBatches(t.balances, t.batches, g.phase.batch, Sent);
    EnginesAfterClose(t.shares, t.batches, w.sends, w.engines, a.e, Sent);
  }

  lemma FailingLowers(batches: map<int, BatchRow>, b: int, p: string)
    requires b in batches && batches[b].status == Pending
    ensures var after := batches[b := batches[b].(status := Failed)];
      Sum(after.Keys, ItemsOf(after, p, {Pending, Sent}))
      == Sum(batches.Keys, ItemsOf(batches, p, {Pending, Sent})) - if p == batches[b].pool then Amounts(batches[b].items) else 0
  {
    BatchesAfter(batches, b, batches[b].(status := Failed), p, {Pending, Sent});
  }

  lemma RefundConserves(t: Tables, pool: string, b: int)
    requires Conserved(t) && HasBatch(t, pool, b) && BatchOk(t.balances, t.batches[b]) && t.batches[b].status == Pending
    ensures Conserved(Refund(t, pool, b))
  {
    var t' := Refund(t, pool, b);
    forall p ensures ConservedIn(t', p) {
      assert ConservedIn(t, p);
      RefillRaises(t.balances, pool, t.batches[b].items, p);
      FailingLowers(t.batches, b, p);
    }
  }

  lemma RefillKeepsBalances(balances: map<Account, int>, batches: map<int, BatchRow>, pool: string, items: map<string, int>)
    requires BalancesOk(balances) && BatchesOk(balances, batches) && forall w :: w in items ==> items[w] > 0
    ensures BalancesOk(Refill(balances, pool, items)) && BatchesOk(Refill(balances, pool, items), batches)
  {
  }

  lemma RefundKeepsInv(w: World, a: Action)
    requires Inv(w) && a.RefundCommit? && Enabled(w, a)
    ensures Inv(Step(w, a))
  {
    var g, t := w.engines[a.e], w.t;
    var b := g.phase.batch;
    assert PhaseOk(t.shares, t.batches, w.sends, g);
    assert BatchOk(t.balances, t.batches[b]);
    RefundConserves(t, g.pool, b);
    RefillKeepsBalances(t.balances, t.batches, g.pool, t.batches[b].items);
    StatusKeepsBatches(Refill(t.balances, g.pool, t.batches[b].items), t.batches, b, Failed);
    EnginesAfterClose(t.shares, t.batches, w.sends, w.engines, a.e, Failed);
  }

  lemma StepKeepsInv(w: World, a: Action)
    requires Inv(w) && Enabled(w, a)
    ensures Inv(Step(w, a))
  {
    match a
    case InsertShare(_, _) => InsertKeepsInv(w, a);
    case SettleCommit(_) => SettleKeepsInv(w, a);
    case BatchCommit(_, _, _) => BatchKeepsInv(w, a);
    case SendOk(_) => SendKeepsInv(w, a);
    case SendError(_) => SendKeepsInv(w, a);
    case MarkBatchSent(_) => MarkKeepsInv(w, a);
    case RefundCommit(_) => RefundKeepsInv(w, a);
    case _ => StateStepKeepsInv(w, a);
  }

  lemma {:induction false} RunKeepsInv(w: World, run: seq<Action>)
    requires Inv(w) && ValidRun(w, run)
    ensures Inv(After(w, run))
    decreases run
  {
    if run != [] {
      StepKeepsInv(w, run[0]);
      RunKeepsInv(Step(w, run[0]), run[1..]);
    }
  }
}
