/** Pools that share the tables do not interfere: what one pool sees of any interleaved run is a run of its own. */
module Isolation {
  import opened Apportionment
  import opened Database
  import opened Plans
  import opened Ledger
  import opened LedgerInvariant

  // ----- the rows of one pool -----

  ghost function SharesOf(shares: map<int, ShareRow>, p: string): map<int, ShareRow> {
    map id | id in shares && shares[id].pool == p :: shares[id]
  }

  ghost function StatesOf(states: map<int, StateRow>, p: string): map<int, StateRow> {
    map id | id in states && states[id].pool == p :: states[id]
  }

  ghost function SettlementsOf(settlements: map<int, SettlementRow>, p: string): map<int, SettlementRow> {
    map id | id in settlements && settlements[id].pool == p :: settlements[id]
  }

  ghost function BalancesOf(balances: map<Account, int>, p: string): map<Account, int> {
    map a: Account | a in balances && a.pool == p :: balances[a]
  }

  ghost function BatchesOf(batches: map<int, BatchRow>, p: string): map<int, BatchRow> {
    map b | b in batches && batches[b].pool == p :: batches[b]
  }

  ghost function TablesOf(t: Tables, p: string): Tables {
    Tables(SharesOf(t.shares, p), StatesOf(t.states, p), SettlementsOf(t.settlements, p),
      BalancesOf(t.balances, p), BatchesOf(t.batches, p))
  }

  ghost function EnginesOf(engines: map<nat, Engine>, p: string): map<nat, Engine> {
    map e | e in engines && engines[e].pool == p :: engines[e]
  }

  ghost function CreditsOf(credits: seq<CreditRecord>, p: string): seq<CreditRecord> {
    if credits == [] then []
    else
      CreditsOf(credits[..|credits| - 1], p)
      + (if credits[|credits| - 1].pool == p then [credits[|credits| - 1]] else [])
  }

  ghost function SendsOf(sends: map<int, SendRecord>, p: string): map<int, SendRecord> {
    map b | b in sends && sends[b].pool == p :: sends[b]
  }

  /** The part of the world that belongs to pool `p`. */
  ghost function View(w: World, p: string): World {
    World(TablesOf(w.t, p), EnginesOf(w.engines, p), CreditsOf(w.credits, p), SendsOf(w.sends, p))
  }

  // ----- statements commute with the projection -----

  lemma NewBlocksLocal(t: Tables, p: string)
    requires StatesOk(t.shares, t.states)
    ensures NewBlocks(TablesOf(t, p), p) == NewBlocks(t, p)
  {
    forall id | id in SharesOf(t.shares, p) ensures id in StatesOf(t.states, p) <==> id in t.states {
      assert id in t.states ==> IsBlockOf(t.shares, t.states[id].pool, id);
    }
  }

  lemma StatesAdd(states: map<int, StateRow>, q: string, ids: set<int>, p: string)
    requires ids !! states.Keys
    ensures var found := map id | id in ids :: StateRow(q, Found);
      StatesOf(states + found, p) == if p == q then StatesOf(states, p) + found else StatesOf(states, p)
  {
  }

  lemma RecordFoundLocal(t: Tables, q: string, p: string)
    requires StatesOk(t.shares, t.states)
    ensures TablesOf(RecordFound(t, q), p) == if p == q then RecordFound(TablesOf(t, p), p) else TablesOf(t, p)
  {
    NewBlocksLocal(t, p);
    StatesAdd(t.states, q, NewBlocks(t, q), p);
  }

  lemma SetStatusLocal(t: Tables, q: string, id: int, s: Status, p: string)
    ensures TablesOf(SetStatus(t, q, id, s), p) == if p == q then SetStatus(TablesOf(t, p), p, id, s) else TablesOf(t, p)
  {
    if p == q {
      assert StatesOf(SetStatus(t, q, id, s).states, p) == SetStatus(TablesOf(t, p), p, id, s).states;
    } else {
      assert StatesOf(SetStatus(t, q, id, s).states, p) == StatesOf(t.states, p);
    }
  }

  lemma CreditLocal(balances: map<Account, int>, q: string, alloc: map<string, int>, p: string)
    ensures BalancesOf(Credit(balances, q, alloc), p)
      == if p == q then Credit(BalancesOf(balances, p), p, alloc) else BalancesOf(balances, p)
  {
  }

  lemma SettlementsInsert(settlements: map<int, SettlementRow>, id: int, row: SettlementRow, p: string)
    requires id !in settlements
    ensures SettlementsOf(settlements[id := row], p)
      == if row.pool == p then SettlementsOf(settlements, p)[id := row] else SettlementsOf(settlements, p)
  {
  }

  lemma BatchesInsert(batches: map<int, BatchRow>, b: int, row: BatchRow, p: string)
    requires b in batches ==> batches[b].pool == row.pool
    ensures BatchesOf(batches[b := row], p)
      == if row.pool == p then BatchesOf(batches, p)[b := row] else BatchesOf(batches, p)
  {
  }

  lemma EnginesInsert(engines: map<nat, Engine>, e: nat, g: Engine, p: string)
    requires e in engines && engines[e].pool == g.pool
    ensures EnginesOf(engines[e := g], p)
      == if g.pool == p then EnginesOf(engines, p)[e := g] else EnginesOf(engines, p)
  {
  }

  lemma SettleLocal(t: Tables, q: string, id: int, reward: int, plan: Plan, p: string)
    requires id in t.shares && t.shares[id].pool == q && id !in t.settlements
    ensures p == q ==> id in SharesOf(t.shares, p)
    ensures TablesOf(Settle(t, q, id, reward, plan), p)
      == if p == q then Settle(TablesOf(t, p), p, id, reward, plan) else TablesOf(t, p)
  {
    var row := SettlementOf(t.shares[id], reward, q, plan);
    var u := t.(balances := Credit(t.balances, q, plan.alloc), settlements := t.settlements[id := row]);
    SetStatusLocal(u, q, id, Settled, p);
    CreditLocal(t.balances, q, plan.alloc, p);
    SettlementsInsert(t.settlements, id, row, p);
  }

  lemma PayableLocal(t: Tables, p: string, minPayout: int, locked: set<string>)
    ensures Payable(TablesOf(t, p), p, minPayout, locked) == Payable(t, p, minPayout, locked)
  {
    var mine, all := Payable(TablesOf(t, p), p, minPayout, locked), Payable(t, p, minPayout, locked);
    forall w | w in all ensures w in mine && mine[w] == all[w] {
      PayableItems(t, p, minPayout, locked, w);
      assert Account(p, w) in BalancesOf(t.balances, p);
    }
    forall w | w in mine ensures w in all {
      PayableItems(TablesOf(t, p), p, minPayout, locked, w);
      assert Account(p, w) in t.balances;
    }
  }

  lemma DebitLocal(balances: map<Account, int>, q: string, items: map<string, int>, p: string)
    ensures BalancesOf(Debit(balances, q, items), p)
      == if p == q then Debit(BalancesOf(balances, p), p, items) else BalancesOf(balances, p)
  {
  }

  lemma RefillLocal(balances: map<Account, int>, q: string, items: map<string, int>, p: string)
    ensures BalancesOf(Refill(balances, q, items), p)
      == if p == q then Refill(BalancesOf(balances, p), p, items) else BalancesOf(balances, p)
  {
  }

  lemma OpenBatchLocal(t: Tables, q: string, batch: int, items: map<string, int>, p: string)
    requires batch !in t.batches
    ensures TablesOf(OpenBatch(t, q, batch, items), p)
      == if p == q then OpenBatch(TablesOf(t, p), p, batch, items) else TablesOf(t, p)
  {
    DebitLocal(t.balances, q, items, p);
    BatchesInsert(t.batches, batch, BatchRow(q, Pending, Amounts(items), items), p);
  }

  lemma MarkSentLocal(t: Tables, q: string, batch: int, p: string)
    ensures TablesOf(MarkSent(t, q, batch), p) == if p == q then MarkSent(TablesOf(t, p), p, batch) else TablesOf(t, p)
  {
    if HasBatch(t, q, batch) {
      BatchesInsert(t.batches, batch, t.batches[batch].(status := Sent), p);
    }
  }

  lemma RefundLocal(t: Tables, q: string, batch: int, p: string)
    ensures TablesOf(Refund(t, q, batch), p) == if p == q then Refund(TablesOf(t, p), p, batch) else TablesOf(t, p)
  {
    if HasBatch(t, q, batch) {
      RefillLocal(t.balances, q, t.batches[batch].items, p);
      BatchesInsert(t.batches, batch, t.batches[batch].(status := Failed), p);
    }
  }

  /** The round of a block is the same whether or not other pools write to the shares table. */
  lemma PlanLocal(shares: map<int, ShareRow>, cfg: Config, p: string, id: int)
    requires id in shares && shares[id].pool == p
    ensures id in SharesOf(shares, p)
    ensures PlanSettlement(SharesOf(shares, p), cfg, p, id) == PlanSettlement(shares, cfg, p, id)
  {
    PlanDependsOnClosedRound(shares, SharesOf(shares, p), cfg, p, id);
  }

  // ----- one step -----

  ghost function PoolOf(engines: map<nat, Engine>, a: Action): string {
    if a.InsertShare? then a.row.pool else if a.e in engines then engines[a.e].pool else ""
  }

  lemma OwnEnabled(w: World, a: Action, p: string)
    requires Inv(w) && Enabled(w, a) && PoolOf(w.engines, a) == p
    ensures Enabled(View(w, p), a)
  {
    if !a.InsertShare? {
      var g := w.engines[a.e];
      assert PhaseOk(w.t.shares, w.t.batches, w.sends, g);
      if a.SettleCommit? {
        PlanLocal(w.t.shares, g.cfg, p, g.phase.block);
      } else if a.BatchCommit? {
        PayableLocal(w.t, p, g.cfg.minPayout, a.locked);
      }
    }
  }

  lemma OwnTables(t: Tables, g: Engine, a: Action)
    requires !a.InsertShare? && CanStep(t, g, a) && CanStep(TablesOf(t, g.pool), g, a)
    requires StatesOk(t.shares, t.states) && (g.phase.Settling? ==> IsBlockOf(t.shares, g.pool, g.phase.block))
    ensures TablesOf(NewTables(t, g, a), g.pool) == NewTables(TablesOf(t, g.pool), g, a)
  {
    var p := g.pool;
    match a
    case SyncInsert(_) => RecordFoundLocal(t, p, p);
    case SyncUpdate(_, id, l) => OwnUpdate(t, p, id, l, g.cfg.maturity);
    case SettleCommit(_) => OwnSettlement(t, g.cfg, p, g.phase.block);
    case BatchCommit(_, batch, locked) => OwnBatch(t, p, batch, g.cfg.minPayout, locked);
    case MarkBatchSent(_) => MarkSentLocal(t, p, g.phase.batch, p);
    case RefundCommit(_) => RefundLocal(t, p, g.phase.batch, p);
    case _ =>
  }

  lemma OwnUpdate(t: Tables, p: string, id: int, l: Lookup, maturity: int)
    ensures TablesOf(ApplyLookup(t, p, id, l, maturity), p) == ApplyLookup(TablesOf(t, p), p, id, l, maturity)
  {
    var s := NextStatus(l, maturity);
    if s.Some? {
      SetStatusLocal(t, p, id, s.value, p);
    }
  }

  lemma OwnSettlement(t: Tables, cfg: Config, p: string, id: int)
    requires IsBlockOf(t.shares, p, id) && id !in t.settlements && PlanSettlement(t.shares, cfg, p, id).Planned?
    ensures var u := TablesOf(t, p);
      && id in u.shares && PlanSettlement(u.shares, cfg, p, id) == PlanSettlement(t.shares, cfg, p, id)
      && var plan := PlanSettlement(t.shares, cfg, p, id).plan;
        TablesOf(Settle(t, p, id, cfg.reward, plan), p) == Settle(u, p, id, cfg.reward, plan)
  {
    PlanLocal(t.shares, cfg, p, id);
    SettleLocal(t, p, id, cfg.reward, PlanSettlement(t.shares, cfg, p, id).plan, p);
  }

  lemma OwnBatch(t: Tables, p: string, batch: int, minPayout: int, locked: set<string>)
    requires batch !in t.batches
    ensures TablesOf(OpenBatch(t, p, batch, Payable(t, p, minPayout, locked)), p)
      == OpenBatch(TablesOf(t, p), p, batch, Payable(TablesOf(t, p), p, minPayout, locked))
  {
    PayableLocal(t, p, minPayout, locked);
    OpenBatchLocal(t, p, batch, Payable(t, p, minPayout, locked), p);
  }

  lemma OwnTablesOf(w: World, a: Action, p: string)
    requires Inv(w) && Enabled(w, a) && !a.InsertShare? && PoolOf(w.engines, a) == p && Enabled(View(w, p), a)
    ensures TablesOf(NewTables(w.t, w.engines[a.e], a), p) == NewTables(TablesOf(w.t, p), w.engines[a.e], a)
  {
    assert PhaseOk(w.t.shares, w.t.batches, w.sends, w.engines[a.e]);
    OwnTables(w.t, w.engines[a.e], a);
  }

  lemma OwnPhase(w: World, a: Action, p: string)
    requires Inv(w) && Enabled(w, a) && !a.InsertShare? && PoolOf(w.engines, a) == p && Enabled(View(w, p), a)
    ensures NewPhase(w.t, w.engines[a.e], a) == NewPhase(TablesOf(w.t, p), w.engines[a.e], a)
  {
    var g := w.engines[a.e];
    match a
    case SyncSelect(_) => assert OpenBlocks(TablesOf(w.t, p), p) == OpenBlocks(w.t, p);
    case BatchCommit(_, batch, locked) => PayableLocal(w.t, p, g.cfg.minPayout, locked);
    case _ =>
  }

  lemma CreditsOfAppend(credits: seq<CreditRecord>, c: CreditRecord, p: string)
    ensures CreditsOf(credits + [c], p) == CreditsOf(credits, p) + if c.pool == p then [c] else []
  {
    assert (credits + [c])[..|credits|] == credits;
  }

  lemma SendsInsert(sends: map<int, SendRecord>, b: int, r: SendRecord, p: string)
    requires b in sends ==> sends[b].pool == r.pool
    ensures SendsOf(sends[b := r], p) == if r.pool == p then SendsOf(sends, p)[b := r] else SendsOf(sends, p)
  {
  }

  /** Settling adds to the history of the engine's own pool and of no other. */
  lemma CreditsLocal(w: World, a: Action, p: string)
    requires Inv(w) && Enabled(w, a) && a.SettleCommit?
    ensures var g := w.engines[a.e];
      CreditsOf(NewCredits(w.credits, w.t, g, a), p) ==
      CreditsOf(w.credits, p)
      + if g.pool == p then [CreditRecord(p, g.phase.block, g.cfg, PlanSettlement(w.t.shares, g.cfg, p, g.phase.block).plan)] else []
  {
    var g := w.engines[a.e];
    CreditsOfAppend(w.credits, CreditRecord(g.pool, g.phase.block, g.cfg, PlanSettlement(w.t.shares, g.cfg, g.pool, g.phase.block).plan), p);
  }

  /** A batch an engine pays belongs to the engine's pool. */
  lemma OwnSendRecord(w: World, e: nat)
    requires Inv(w) && e in w.engines && HasBatchIn(w.engines[e].phase)
    ensures w.engines[e].phase.batch in w.sends ==> w.sends[w.engines[e].phase.batch].pool == w.engines[e].pool
  {
    assert PhaseOk(w.t.shares, w.t.batches, w.sends, w.engines[e]);
    var b := w.engines[e].phase.batch;
    assert b in w.sends ==> SendOkFor(w.t.batches, b, w.sends[b]);
  }

  lemma OwnCredits(w: World, a: Action, p: string)
    requires Inv(w) && Enabled(w, a) && !a.InsertShare? && PoolOf(w.engines, a) == p && Enabled(View(w, p), a)
    ensures CreditsOf(NewCredits(w.credits, w.t, w.engines[a.e], a), p)
      == NewCredits(CreditsOf(w.credits, p), TablesOf(w.t, p), w.engines[a.e], a)
  {
    if a.SettleCommit? {
      BlockOfSettling(w, a.e);
      PlanLocal(w.t.shares, w.engines[a.e].cfg, p, w.engines[a.e].phase.block);
      CreditsLocal(w, a, p);
    }
  }

  lemma SendsLocal(sends: map<int, SendRecord>, t: Tables, t2: Tables, g: Engine, a: Action, p: string)
    requires (a.SendOk? || a.SendError?) && CanStep(t, g, a) && CanStep(t2, g, a)
    requires g.phase.batch in sends ==> sends[g.phase.batch].pool == g.pool
    ensures SendsOf(NewSends(sends, t, g, a), p)
      == if g.pool == p then NewSends(SendsOf(sends, p), t2, g, a) else SendsOf(sends, p)
  {
    SendsInsert(sends, g.phase.batch, NewSends(sends, t, g, a)[g.phase.batch], p);
  }

  lemma OwnSends(w: World, a: Action, p: string)
    requires Inv(w) && Enabled(w, a) && !a.InsertShare? && PoolOf(w.engines, a) == p && Enabled(View(w, p), a)
    ensures SendsOf(NewSends(w.sends, w.t, w.engines[a.e], a), p)
      == NewSends(SendsOf(w.sends, p), TablesOf(w.t, p), w.engines[a.e], a)
  {
    if a.SendOk? || a.SendError? {
      OwnSendRecord(w, a.e);
      SendsLocal(w.sends, w.t, TablesOf(w.t, p), w.engines[a.e], a, p);
    }
  }

  lemma StepViews(w: World, a: Action, p: string)
    requires Enabled(w, a) && !a.InsertShare?
    ensures View(Step(w, a), p) == World(
      TablesOf(NewTables(w.t, w.engines[a.e], a), p),
      EnginesOf(w.engines[a.e := w.engines[a.e].(phase := NewPhase(w.t, w.engines[a.e], a))], p),
      CreditsOf(NewCredits(w.credits, w.t, w.engines[a.e], a), p),
      SendsOf(NewSends(w.sends, w.t, w.engines[a.e], a), p))
  {
  }

  /** A step of the pool's own is the same step in its view. */
  lemma OwnStep(w: World, a: Action, p: string)
    requires Inv(w) && Enabled(w, a) && PoolOf(w.engines, a) == p
    ensures Enabled(View(w, p), a) && View(Step(w, a), p) == Step(View(w, p), a)
  {
    OwnEnabled(w, a, p);
    if a.InsertShare? {
      assert SharesOf(w.t.shares[a.id := a.row], p) == SharesOf(w.t.shares, p)[a.id := a.row];
    } else {
      OwnTablesOf(w, a, p);
      OwnPhase(w, a, p);
      OwnCredits(w, a, p);
      OwnSends(w, a, p);
      EnginesInsert(w.engines, a.e, w.engines[a.e].(phase := NewPhase(w.t, w.engines[a.e], a)), p);
      StepViews(w, a, p);
    }
  }

  lemma ForeignTables(w: World, a: Action, p: string)
    requires Inv(w) && Enabled(w, a) && !a.InsertShare? && PoolOf(w.engines, a) != p
    ensures TablesOf(NewTables(w.t, w.engines[a.e], a), p) == TablesOf(w.t, p)
  {
    var g := w.engines[a.e];
    assert PhaseOk(w.t.shares, w.t.batches, w.sends, g);
    match a
    case SyncInsert(_) => RecordFoundLocal(w.t, g.pool, p);
    case SyncUpdate(_, id, l) =>
      var s := NextStatus(l, g.cfg.maturity);
      if s.Some? {
        SetStatusLocal(w.t, g.pool, id, s.value, p);
      }
    case SettleCommit(_) =>
      var id := g.phase.block;
      SettleLocal(w.t, g.pool, id, g.cfg.reward, PlanSettlement(w.t.shares, g.cfg, g.pool, id).plan, p);
    case BatchCommit(_, batch, locked) => OpenBatchLocal(w.t, g.pool, batch, Payable(w.t, g.pool, g.cfg.minPayout, locked), p);
    case MarkBatchSent(_) => MarkSentLocal(w.t, g.pool, g.phase.batch, p);
    case RefundCommit(_) => RefundLocal(w.t, g.pool, g.phase.batch, p);
    case _ =>
  }

  lemma ForeignCredits(w: World, a: Action, p: string)
    requires Inv(w) && Enabled(w, a) && !a.InsertShare? && PoolOf(w.engines, a) != p
    ensures CreditsOf(NewCredits(w.credits, w.t, w.engines[a.e], a), p) == CreditsOf(w.credits, p)
  {
    if a.SettleCommit? {
      CreditsLocal(w, a, p);
    }
  }

  lemma ForeignSends(w: World, a: Action, p: string)
    requires Inv(w) && Enabled(w, a) && !a.InsertShare? && PoolOf(w.engines, a) != p
    ensures SendsOf(NewSends(w.sends, w.t, w.engines[a.e], a), p) == SendsOf(w.sends, p)
  {
    if a.SendOk? || a.SendError? {
      OwnSendRecord(w, a.e);
      SendsLocal(w.sends, w.t, w.t, w.engines[a.e], a, p);
    }
  }

  /** A step of another pool is invisible. */
  lemma ForeignStep(w: World, a: Action, p: string)
    requires Inv(w) && Enabled(w, a) && PoolOf(w.engines, a) != p
    ensures View(Step(w, a), p) == View(w, p)
  {
    if a.InsertShare? {
      assert SharesOf(w.t.shares[a.id := a.row], p) == SharesOf(w.t.shares, p);
    } else {
      ForeignTables(w, a, p);
      ForeignCredits(w, a, p);
      ForeignSends(w, a, p);
      EnginesInsert(w.engines, a.e, w.engines[a.e].(phase := NewPhase(w.t, w.engines[a.e], a)), p);
      StepViews(w, a, p);
    }
  }

  // ----- whole runs -----

  ghost function RunOf(engines: map<nat, Engine>, run: seq<Action>, p: string): seq<Action> {
    if run == [] then []
    else (if PoolOf(engines, run[0]) == p then [run[0]] else []) + RunOf(engines, run[1..], p)
  }

  ghost predicate SamePools(engines: map<nat, Engine>, later: map<nat, Engine>) {
    engines.Keys == later.Keys && forall e :: e in engines ==> engines[e].pool == later[e].pool
  }

  lemma {:induction false} RunOfDependsOnPools(engines: map<nat, Engine>, later: map<nat, Engine>, run: seq<Action>, p: string)
    requires SamePools(engines, later)
    ensures RunOf(engines, run, p) == RunOf(later, run, p)
  {
    if run != [] {
      RunOfDependsOnPools(engines, later, run[1..], p);
    }
  }

  /** Non-interference: the view of one pool after any interleaved run is the result of that pool's own steps alone -
      the same rounds, credits, balances and batches. */
  lemma {:induction false} PoolsDoNotInterfere(w: World, run: seq<Action>, p: string)
    requires Inv(w) && ValidRun(w, run)
    ensures ValidRun(View(w, p), RunOf(w.engines, run, p))
    ensures View(After(w, run), p) == After(View(w, p), RunOf(w.engines, run, p))
    decreases run
  {
    if run != [] {
      var a, w' := run[0], Step(w, run[0]);
      StepKeepsInv(w, a);
      PoolsDoNotInterfere(w', run[1..], p);
      RunOfDependsOnPools(w.engines, w'.engines, run[1..], p);
      if PoolOf(w.engines, a) == p {
        OwnStep(w, a, p);
        assert RunOf(w.engines, run, p)[1..] == RunOf(w.engines, run[1..], p);
      } else {
        ForeignStep(w, a, p);
        assert RunOf(w.engines, run, p) == RunOf(w.engines, run[1..], p);
      }
    }
  }
}
