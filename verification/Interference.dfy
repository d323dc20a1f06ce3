/** Several engines on one pool: exactly then a final status can be overwritten. */
module Interference {
  import opened Fees
  import opened Addresses
  import opened Options
  import opened Database
  import opened Plans
  import opened Ledger
  import opened LedgerTheorems

  // ----- final statuses absorb if and only if engines are sole -----

  /** In every run, every step keeps every final status. */
  ghost predicate KeepsFinalStatuses(w: World) {
    forall run, a :: ValidRun(w, run) && Enabled(After(w, run), a) ==>
      FinalKept(After(w, run).t.states, Step(After(w, run), a).t.states)
  }

  /** From any empty start, whatever the pools and configurations: orphan and settled are absorbing over every run if and
      only if no two engines share a pool. */
  lemma FinalStatusesAbsorbIffSole(w: World)
    requires Init(w)
    ensures KeepsFinalStatuses(w) <==> OneEnginePerPool(w.engines)
  {
    if OneEnginePerPool(w.engines) {
      forall run, a | ValidRun(w, run) && Enabled(After(w, run), a)
        ensures FinalKept(After(w, run).t.states, Step(After(w, run), a).t.states)
      {
        InitIsSole(w);
        SettledIffRowAlways(w, run);
        SoleStep(After(w, run), a);
      }
    } else {
      var e, f :| e in w.engines && f in w.engines && w.engines[e].pool == w.engines[f].pool && e != f;
      StaleAnswerBreaksFinal(w, e, f);
    }
  }

  ghost function FoundBlock(pool: string): ShareRow {
    ShareRow(pool, "addr.rig", 1.0, true, "k", Some("h"))
  }

  /** The world with one found block, in the given state and with the two engines in the given phases. */
  ghost function WithBlock(w: World, e: nat, f: nat, s: Status, pe: Phase, pf: Phase): World
    requires e in w.engines && f in w.engines
  {
    var pool := w.engines[e].pool;
    World(Tables(map[1 := FoundBlock(pool)], map[1 := StateRow(pool, s)], map[], map[], map[]),
      w.engines[e := w.engines[e].(phase := pe)][f := w.engines[f].(phase := pf)], [], map[])
  }

  ghost predicate SharePool(w: World, e: nat, f: nat) {
    e in w.engines && f in w.engines && w.engines[e].pool == w.engines[f].pool && e != f
  }

  lemma FindIt(w: World, e: nat, f: nat) returns (run: seq<Action>)
    requires Init(w) && SharePool(w, e, f)
    ensures ValidRun(w, run) && After(w, run) == WithBlock(w, e, f, Found, Idle, Idle)
  {
    var pool := w.engines[e].pool;
    var a, b := InsertShare(1, FoundBlock(pool)), SyncInsert(e);
    var w1 := Step(w, a);
    assert NewBlocks(w1.t, pool) == {1};
    var w2 := Step(w1, b);
    assert w2.t.states == map[1 := StateRow(pool, Found)];
    assert w2.engines == WithBlock(w, e, f, Found, Idle, Idle).engines;
    run := [a] + ([b] + []);
    RunCons(w1, b, []);
    RunCons(w, a, [b] + []);
  }

  lemma BothList(w: World, e: nat, f: nat) returns (run: seq<Action>)
    requires Init(w) && SharePool(w, e, f)
    ensures var w0 := WithBlock(w, e, f, Found, Idle, Idle);
      ValidRun(w0, run) && After(w0, run) == WithBlock(w, e, f, Found, Syncing({1}), Syncing({1}))
  {
    var w0 := WithBlock(w, e, f, Found, Idle, Idle);
    assert OpenBlocks(w0.t, w.engines[e].pool) == {1};
    var w1 := Step(w0, SyncSelect(e));
    assert w1 == WithBlock(w, e, f, Found, Syncing({1}), Idle);
    var w2 := Step(w1, SyncSelect(f));
    assert w2 == WithBlock(w, e, f, Found, Syncing({1}), Syncing({1}));
    run := [SyncSelect(e)] + ([SyncSelect(f)] + []);
    RunCons(w1, SyncSelect(f), []);
    RunCons(w0, SyncSelect(e), [SyncSelect(f)] + []);
  }

  lemma OneOrphansIt(w: World, e: nat, f: nat) returns (run: seq<Action>)
    requires Init(w) && SharePool(w, e, f)
    ensures var w0 := WithBlock(w, e, f, Found, Syncing({1}), Syncing({1}));
      ValidRun(w0, run) && After(w0, run) == WithBlock(w, e, f, Orphan, Syncing({}), Syncing({1}))
  {
    var w0 := WithBlock(w, e, f, Found, Syncing({1}), Syncing({1}));
    var a := SyncUpdate(e, 1, Missing);
    var w1 := Step(w0, a);
    assert {1} - {1} == {};
    assert w1.engines == WithBlock(w, e, f, Orphan, Syncing({}), Syncing({1})).engines;
    run := [a] + [];
    RunCons(w0, a, []);
  }

  /** Both list the block as open, one is told it is missing, and the other writes its older answer. */
  lemma StaleAnswerBreaksFinal(w: World, e: nat, f: nat)
    requires Init(w) && SharePool(w, e, f)
    ensures !KeepsFinalStatuses(w)
  {
    var find := FindIt(w, e, f);
    var list := BothList(w, e, f);
    var orphan := OneOrphansIt(w, e, f);
    RunConcat(w, find, list);
    RunConcat(w, find + list, orphan);
    var w1, a := WithBlock(w, e, f, Orphan, Syncing({}), Syncing({1})), SyncUpdate(f, 1, Confirmations(1));
    assert After(w, find + list + orphan) == w1 && Enabled(w1, a);
    assert Step(w1, a).t.states[1].status != Orphan;
    assert !FinalKept(w1.t.states, Step(w1, a).t.states);
  }

  // ----- settled status and settlement row agree if and only if no settling engine has a rival -----

  /** Whether an engine with this configuration can settle any block at all. */
  ghost predicate CanSettle(cfg: Config) {
    SplitReward(cfg.reward, cfg.developerPercent, cfg.poolPercent).Split? && cfg.scheme != OtherScheme
  }

  ghost predicate Alone(engines: map<nat, Engine>, e: nat) {
    e in engines && forall f :: f in engines && engines[f].pool == engines[e].pool ==> f == e
  }

  ghost predicate SettlersAreAlone(engines: map<nat, Engine>) {
    forall e :: e in engines && CanSettle(engines[e].cfg) ==> Alone(engines, e)
  }

  ghost predicate NothingSettled(states: map<int, StateRow>, pool: string) {
    forall id :: id in states && states[id].pool == pool ==> states[id].status != Settled
  }

  /** A lone engine knows which blocks are open; where engines share a pool, none can settle and nothing is settled. */
  ghost predicate EngineOk(states: map<int, StateRow>, engines: map<nat, Engine>, e: nat)
    requires e in engines
  {
    if Alone(engines, e) then Fresh(states, engines[e])
    else !CanSettle(engines[e].cfg) && NothingSettled(states, engines[e].pool)
  }

  ghost predicate AgreeInv(t: Tables, engines: map<nat, Engine>) {
    SettledIffRow(t) && forall e :: e in engines ==> EngineOk(t.states, engines, e)
  }

  lemma AloneStays(engines: map<nat, Engine>, e: nat, phase: Phase, f: nat)
    requires e in engines
    ensures Alone(engines[e := engines[e].(phase := phase)], f) <==> Alone(engines, f)
  {
    var after := engines[e := engines[e].(phase := phase)];
    assert forall g :: g in after ==> g in engines && after[g].pool == engines[g].pool;
    assert forall g :: g in engines ==> g in after && after[g].pool == engines[g].pool;
  }

  /** A new status for a block of one engine's pool, and a new phase for that engine, as any engine sees it. */
  lemma StatusKeepsEngine(states: map<int, StateRow>, engines: map<nat, Engine>, e: nat, id: int, s: Status, phase: Phase, f: nat)
    requires e in engines && id in states && states[id].pool == engines[e].pool
    requires f in engines && EngineOk(states, engines, f) && (s == Settled ==> Alone(engines, e))
    requires Alone(engines, e) ==> Fresh(states[id := states[id].(status := s)], engines[e].(phase := phase))
    ensures EngineOk(states[id := states[id].(status := s)], engines[e := engines[e].(phase := phase)], f)
  {
    AloneStays(engines, e, phase, f);
    if Alone(engines, f) && f != e {
      assert engines[f].pool != engines[e].pool;
    }
  }

  lemma StatusKeepsEngines(t: Tables, engines: map<nat, Engine>, e: nat, id: int, s: Status, t': Tables, phase: Phase)
    requires AgreeInv(t, engines) && e in engines && id in t.states && t.states[id].pool == engines[e].pool
    requires t'.states == t.states[id := t.states[id].(status := s)] && SettledIffRow(t')
    requires s == Settled ==> Alone(engines, e)
    requires Alone(engines, e) ==> Fresh(t'.states, engines[e].(phase := phase))
    ensures AgreeInv(t', engines[e := engines[e].(phase := phase)])
  {
    forall f | f in engines ensures EngineOk(t'.states, engines[e := engines[e].(phase := phase)], f) {
      StatusKeepsEngine(t.states, engines, e, id, s, phase, f);
    }
  }

  lemma SettleAgrees(w: World, a: Action)
    requires AgreeInv(w.t, w.engines) && a.SettleCommit? && Enabled(w, a)
    ensures AgreeInv(Step(w, a).t, Step(w, a).engines)
  {
    var g := w.engines[a.e];
    PlanAcceptedIff(w.t.shares, g.cfg, g.pool, g.phase.block);
    assert EngineOk(w.t.states, w.engines, a.e);
    var t' := Step(w, a).t;
    assert SettledIffRow(t');
    StatusKeepsEngines(w.t, w.engines, a.e, g.phase.block, Settled, t', Idle);
  }

  lemma UpdateAgrees(w: World, a: Action)
    requires AgreeInv(w.t, w.engines) && a.SyncUpdate? && Enabled(w, a)
    ensures AgreeInv(Step(w, a).t, Step(w, a).engines)
  {
    var g, t, t' := w.engines[a.e], w.t, Step(w, a).t;
    var next, phase := NextStatus(a.lookup, g.cfg.maturity), Syncing(g.phase.pending - {a.id});
    if next.Some? && a.id in t.states && t.states[a.id].pool == g.pool {
      assert EngineOk(t.states, w.engines, a.e);
      assert t.states[a.id].status != Settled;
      assert SettledIffRow(t');
      StatusKeepsEngines(t, w.engines, a.e, a.id, next.value, t', phase);
    } else {
      assert t'.states == t.states && t'.settlements == t.settlements;
      assert EngineOk(t.states, w.engines, a.e);
      PhaseAgrees(t, w.engines, a.e, t', phase);
    }
  }

  /** Every state is as it was, or new and found. */
  ghost predicate OnlyFoundAdded(before: map<int, StateRow>, after: map<int, StateRow>) {
    && (forall id :: id in before ==> id in after && after[id] == before[id])
    && (forall id :: id in after && id !in before ==> after[id].status == Found)
  }

  lemma FoundIsNotSettled(t: Tables, t': Tables, pool: string)
    requires OnlyFoundAdded(t.states, t'.states) && t'.settlements == t.settlements
    ensures SettledIffRow(t) ==> SettledIffRow(t')
    ensures NothingSettled(t.states, pool) ==> NothingSettled(t'.states, pool)
  {
  }

  lemma PhaseKeepsEngine(t: Tables, engines: map<nat, Engine>, e: nat, t': Tables, phase: Phase, f: nat)
    requires e in engines && f in engines && EngineOk(t.states, engines, f)
    requires t'.settlements == t.settlements && OnlyFoundAdded(t.states, t'.states)
    requires Alone(engines, e) ==> Fresh(t'.states, engines[e].(phase := phase))
    ensures EngineOk(t'.states, engines[e := engines[e].(phase := phase)], f)
  {
    AloneStays(engines, e, phase, f);
    FoundIsNotSettled(t, t', engines[f].pool);
  }

  /** No settled status comes or goes, and the engine knows at most open blocks. */
  lemma PhaseAgrees(t: Tables, engines: map<nat, Engine>, e: nat, t': Tables, phase: Phase)
    requires AgreeInv(t, engines) && e in engines && t'.settlements == t.settlements && OnlyFoundAdded(t.states, t'.states)
    requires Alone(engines, e) ==> Fresh(t'.states, engines[e].(phase := phase))
    ensures AgreeInv(t', engines[e := engines[e].(phase := phase)])
  {
    FoundIsNotSettled(t, t', "");
    forall f | f in engines ensures EngineOk(t'.states, engines[e := engines[e].(phase := phase)], f) {
      PhaseKeepsEngine(t, engines, e, t', phase, f);
    }
  }

  lemma OtherAgrees(w: World, a: Action)
    requires AgreeInv(w.t, w.engines) && Enabled(w, a)
    requires !a.InsertShare? && !a.SettleCommit? && !a.SyncUpdate?
    ensures AgreeInv(Step(w, a).t, Step(w, a).engines)
  {
    var g := w.engines[a.e];
    assert EngineOk(w.t.states, w.engines, a.e);
    PhaseAgrees(w.t, w.engines, a.e, Step(w, a).t, NewPhase(w.t, g, a));
  }

  lemma {:induction false} RunAgrees(w: World, run: seq<Action>)
    requires AgreeInv(w.t, w.engines) && ValidRun(w, run)
    ensures SettledIffRow(After(w, run).t)
    decreases run
  {
    if run != [] {
      var a := run[0];
      if a.SettleCommit? {
        SettleAgrees(w, a);
      } else if a.SyncUpdate? {
        UpdateAgrees(w, a);
      } else if !a.InsertShare? {
        OtherAgrees(w, a);
      }
      RunAgrees(Step(w, a), run[1..]);
    }
  }

  ghost predicate RowsAndStatusesAgree(w: World) {
    forall run :: ValidRun(w, run) ==> SettledIffRow(After(w, run).t)
  }

  /** From any empty start: in every reachable state a block is settled exactly if its settlement row exists, if and only
      if every engine whose configuration can settle at all is alone on its pool. */
  lemma StatusesFollowRowsIff(w: World)
    requires Init(w)
    ensures RowsAndStatusesAgree(w) <==> SettlersAreAlone(w.engines)
  {
    if SettlersAreAlone(w.engines) {
      forall run | ValidRun(w, run) ensures SettledIffRow(After(w, run).t) {
        RunAgrees(w, run);
      }
    } else {
      var e :| e in w.engines && CanSettle(w.engines[e].cfg) && !Alone(w.engines, e);
      var f :| f in w.engines && w.engines[f].pool == w.engines[e].pool && f != e;
      var run := TwoEnginesCanReopenASettledBlock(w, e, f);
      assert !SettledIffRow(After(w, run).t);
    }
  }

  /** Enough confirmations for this configuration. */
  ghost function Enough(cfg: Config): int {
    if cfg.maturity > 0 then cfg.maturity else 0
  }

  lemma OneSeesItMature(w: World, e: nat, f: nat) returns (run: seq<Action>)
    requires Init(w) && SharePool(w, e, f)
    ensures var w0 := WithBlock(w, e, f, Found, Syncing({1}), Syncing({1}));
      ValidRun(w0, run) && After(w0, run) == WithBlock(w, e, f, Mature, Idle, Syncing({1}))
  {
    var w0 := WithBlock(w, e, f, Found, Syncing({1}), Syncing({1}));
    var a, b := SyncUpdate(e, 1, Confirmations(Enough(w.engines[e].cfg))), Stop(e);
    var w1 := Step(w0, a);
    assert w1.engines == WithBlock(w, e, f, Mature, Syncing({1} - {1}), Syncing({1})).engines;
    assert w1 == WithBlock(w, e, f, Mature, Syncing({1} - {1}), Syncing({1}));
    assert Step(w1, b) == WithBlock(w, e, f, Mature, Idle, Syncing({1}));
    run := [a] + ([b] + []);
    RunCons(w1, b, []);
    RunCons(w0, a, [b] + []);
  }

  lemma SettleAndOverwrite(w: World, e: nat, f: nat) returns (run: seq<Action>)
    requires Init(w) && SharePool(w, e, f) && CanSettle(w.engines[e].cfg)
    ensures var w0 := WithBlock(w, e, f, Mature, Idle, Syncing({1}));
      ValidRun(w0, run) && var t := After(w0, run).t; 1 in t.settlements && 1 in t.states && t.states[1].status == Mature
  {
    var w0 := WithBlock(w, e, f, Mature, Idle, Syncing({1}));
    var g := w.engines[e];
    var a, b, c := SettleSelect(e, 1), SettleCommit(e), SyncUpdate(f, 1, Confirmations(Enough(w.engines[f].cfg)));
    assert Unsettled(w0.t, g.pool, 1);
    var w1 := Step(w0, a);
    assert w1.t == w0.t && w1.engines[e].phase == Settling(1) && w1.engines[f] == w0.engines[f];
    FoundBlockHasPayee(w1.t.shares, g.cfg, g.pool);
    var w2 := Step(w1, b);
    assert w2.engines[f].phase == Syncing({1}) && 1 in w2.t.settlements && w2.t.states[1].pool == g.pool;
    run := [a] + ([b] + ([c] + []));
    RunCons(w2, c, []);
    RunCons(w1, b, [c] + []);
    RunCons(w0, a, [b] + ([c] + []));
  }

  lemma FoundBlockCounts(pool: string)
    ensures PayoutAddress(FoundBlock(pool).worker) != "" && Counts(FoundBlock(pool))
  {
    RigsShareTheAddress("addr", "rig");
    assert "addr" + "." + "rig" == "addr.rig";
  }

  lemma FoundBlockHasPayee(shares: map<int, ShareRow>, cfg: Config, pool: string)
    requires 1 in shares && shares[1] == FoundBlock(pool) && CanSettle(cfg)
    ensures PlanSettlement(shares, cfg, pool, 1).Planned?
  {
    FoundBlockCounts(pool);
    assert PreviousBlock(shares, pool, 1) < 1 <= 1;
    PlanAcceptedIff(shares, cfg, pool, 1);
  }

  /** Two engines on one pool, one of which can settle: its settled block is written back to mature. (It is still not
      settled twice: BlocksAreCreditedExactlyOnce.) */
  lemma TwoEnginesCanReopenASettledBlock(w: World, e: nat, f: nat) returns (run: seq<Action>)
    requires Init(w) && SharePool(w, e, f) && CanSettle(w.engines[e].cfg)
    ensures ValidRun(w, run)
    ensures var t := After(w, run).t; 1 in t.settlements && 1 in t.states && t.states[1].status == Mature
  {
    var find := FindIt(w, e, f);
    var list := BothList(w, e, f);
    var mature := OneSeesItMature(w, e, f);
    var settle := SettleAndOverwrite(w, e, f);
    RunConcat(w, find, list);
    RunConcat(w, find + list, mature);
    RunConcat(w, find + list + mature, settle);
    run := find + list + mature + settle;
  }
}
