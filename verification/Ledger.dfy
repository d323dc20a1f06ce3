/** The payout engines as a state machine over the shared tables. Every SQL statement outside a transaction, and every
    transaction as a whole, is one atomic step; engines of any pools interleave, and any of them may stop between steps. */
module Ledger {
  import opened Apportionment
  import opened Database

  /** Where an engine is between two statements. The fields are what the Go code holds in local variables. */
  datatype Phase =
    | Idle
    | Syncing(pending: set<int>)
    | Settling(block: int)
    | Sending(batch: int, amounts: map<string, int>)
    | Marking(batch: int)
    | Refunding(batch: int)

  datatype Engine = Engine(pool: string, cfg: Config, phase: Phase)

  /** One committed settlement, as history: which block, under which configuration, credited what. */
  datatype CreditRecord = CreditRecord(pool: string, block: int, cfg: Config, plan: Plan)

  /** What the wallet was asked to pay for one batch, as history. */
  datatype SendRecord = SendRecord(pool: string, calls: nat, paid: int)

  datatype World = World(
    t: Tables, engines: map<nat, Engine>, credits: seq<CreditRecord>, sends: map<int, SendRecord>)

  datatype Action =
    | InsertShare(id: int, row: ShareRow)
    | SyncInsert(e: nat)
    | SyncSelect(e: nat)
    | SyncUpdate(e: nat, id: int, lookup: Lookup)
    | SettleSelect(e: nat, id: int)
    | SettleCommit(e: nat)
    | BatchCommit(e: nat, batch: int, locked: set<string>)
    | SendOk(e: nat)
    | SendError(e: nat)
    | MarkBatchSent(e: nat)
    | RefundCommit(e: nat)
    | Stop(e: nat)

  /** The steps an engine `g` can take on the tables. `SettleSelect` may pick any block that matches the WHERE clause,
      whatever other engines have picked meanwhile; only the primary key of block_settlements guards the commit. */
  ghost predicate CanStep(t: Tables, g: Engine, a: Action)
    requires !a.InsertShare?
  {
    match a
    case SyncInsert(_) => g.phase.Idle?
    case SyncSelect(_) => g.phase.Idle?
    case SyncUpdate(_, id, _) => g.phase.Syncing? && id in g.phase.pending
    case SettleSelect(_, id) => g.phase.Idle? && Unsettled(t, g.pool, id)
    case SettleCommit(_) =>
      g.phase.Settling? && g.phase.block in t.shares && g.phase.block !in t.settlements
      && PlanSettlement(t.shares, g.cfg, g.pool, g.phase.block).Planned?
    case BatchCommit(_, batch, locked) =>
      g.phase.Idle? && Payable(t, g.pool, g.cfg.minPayout, locked) != map[]
      && forall b :: b in t.batches ==> b < batch
    case SendOk(_) => g.phase.Sending?
    case SendError(_) => g.phase.Sending?
    case MarkBatchSent(_) => g.phase.Marking?
    case RefundCommit(_) => g.phase.Refunding?
    case Stop(_) => true
  }

  ghost predicate Enabled(w: World, a: Action) {
    if a.InsertShare? then CanInsertShare(w.t.shares, a.id, a.row)
    else a.e in w.engines && CanStep(w.t, w.engines[a.e], a)
  }

  ghost function NewTables(t: Tables, g: Engine, a: Action): Tables
    requires !a.InsertShare? && CanStep(t, g, a)
  {
    match a
    case SyncInsert(_) => RecordFound(t, g.pool)
    case SyncSelect(_) => t
    case SyncUpdate(_, id, lookup) => ApplyLookup(t, g.pool, id, lookup, g.cfg.maturity)
    case SettleSelect(_, _) => t
    case SettleCommit(_) =>
      Settle(t, g.pool, g.phase.block, g.cfg.reward, PlanSettlement(t.shares, g.cfg, g.pool, g.phase.block).plan)
    case BatchCommit(_, batch, locked) => OpenBatch(t, g.pool, batch, Payable(t, g.pool, g.cfg.minPayout, locked))
    case SendOk(_) => t
    case SendError(_) => t
    case MarkBatchSent(_) => MarkSent(t, g.pool, g.phase.batch)
    case RefundCommit(_) => Refund(t, g.pool, g.phase.batch)
    case Stop(_) => t
  }

  ghost function NewPhase(t: Tables, g: Engine, a: Action): Phase
    requires !a.InsertShare? && CanStep(t, g, a)
  {
    match a
    case SyncInsert(_) => Idle
    case SyncSelect(_) => Syncing(OpenBlocks(t, g.pool))
    case SyncUpdate(_, id, _) => Syncing(g.phase.pending - {id})
    case SettleSelect(_, id) => Settling(id)
    case SettleCommit(_) => Idle
    case BatchCommit(_, batch, locked) => Sending(batch, Payable(t, g.pool, g.cfg.minPayout, locked))
    case SendOk(_) => Marking(g.phase.batch)
    case SendError(_) => Refunding(g.phase.batch)
    case MarkBatchSent(_) => Idle
    case RefundCommit(_) => Idle
    case Stop(_) => Idle
  }

  ghost function NewCredits(credits: seq<CreditRecord>, t: Tables, g: Engine, a: Action): seq<CreditRecord>
    requires !a.InsertShare? && CanStep(t, g, a)
  {
    if a.SettleCommit? then
      credits + [CreditRecord(g.pool, g.phase.block, g.cfg, PlanSettlement(t.shares, g.cfg, g.pool, g.phase.block).plan)]
    else credits
  }

  /** SendMany is called with the amounts kept since the commit; if it fails nothing was paid. */
  ghost function NewSends(sends: map<int, SendRecord>, t: Tables, g: Engine, a: Action): map<int, SendRecord>
    requires !a.InsertShare? && CanStep(t, g, a)
  {
    if a.SendOk? || a.SendError? then
      var b := g.phase.batch;
      var prior := if b in sends then sends[b] else SendRecord(g.pool, 0, 0);
      sends[b := SendRecord(g.pool, prior.calls + 1, prior.paid + if a.SendOk? then Amounts(g.phase.amounts) else 0)]
    else sends
  }

  ghost function Step(w: World, a: Action): World
    requires Enabled(w, a)
  {
    if a.InsertShare? then w.(t := w.t.(shares := w.t.shares[a.id := a.row]))
    else
      var g := w.engines[a.e];
      World(
        NewTables(w.t, g, a),
        w.engines[a.e := g.(phase := NewPhase(w.t, g, a))],
        NewCredits(w.credits, w.t, g, a),
        NewSends(w.sends, w.t, g, a))
  }

  ghost predicate ValidRun(w: World, run: seq<Action>)
    decreases run
  {
    run == [] || (Enabled(w, run[0]) && ValidRun(Step(w, run[0]), run[1..]))
  }

  ghost function After(w: World, run: seq<Action>): World
    requires ValidRun(w, run)
    decreases run
  {
    if run == [] then w else After(Step(w, run[0]), run[1..])
  }

  lemma RunCons(w: World, a: Action, rest: seq<Action>)
    requires Enabled(w, a) && ValidRun(Step(w, a), rest)
    ensures ValidRun(w, [a] + rest) && After(w, [a] + rest) == After(Step(w, a), rest)
  {
    assert ([a] + rest)[1..] == rest;
  }

  lemma {:induction false} RunConcat(w: World, first: seq<Action>, second: seq<Action>)
    requires ValidRun(w, first) && ValidRun(After(w, first), second)
    ensures ValidRun(w, first + second) && After(w, first + second) == After(After(w, first), second)
    decreases first
  {
    if first == [] {
      assert first + second == second;
    } else {
      assert (first + second)[1..] == first[1..] + second;
      RunConcat(Step(w, first[0]), first[1..], second);
    }
  }

  /** Empty tables and idle engines. */
  ghost predicate Init(w: World) {
    && w.t == Tables(map[], map[], map[], map[], map[])
    && (forall e :: e in w.engines ==> w.engines[e].phase == Idle)
    && w.credits == [] && w.sends == map[]
  }
}
