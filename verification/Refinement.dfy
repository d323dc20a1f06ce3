/** Every call of the imperative engine is a run of the state machine, so all its safety theorems hold of the engine. */
module Refinement {
  import opened Sums
  import opened Database
  import opened Ledger
  import opened Draining
  import opened PayoutEngine

  ghost predicate IsIdle(w: World, e: nat) {
    e in w.engines && w.engines[e].phase == Idle
  }

  /** The tables are `t`, the engine is idle again and no other engine moved. */
  ghost predicate EndsWith(w: World, w': World, t: Tables) {
    w'.t == t && w'.engines == w.engines
  }

  ghost function SendAction(e: nat, fate: Fate): Action {
    if fate.sendSucceeds then SendOk(e) else SendError(e)
  }

  ghost function CloseAction(e: nat, fate: Fate): Action {
    if fate.sendSucceeds then (if fate.markSucceeds then MarkBatchSent(e) else Stop(e))
    else if fate.refundSucceeds then RefundCommit(e) else Stop(e)
  }

  lemma SendAndClose(w: World, e: nat, fate: Fate)
    requires e in w.engines && w.engines[e].phase.Sending?
    ensures var g := w.engines[e]; var run := [SendAction(e, fate), CloseAction(e, fate)];
      && ValidRun(w, run)
      && After(w, run).t == AfterSend(w.t, g.pool, g.phase.batch, fate)
      && After(w, run).engines == w.engines[e := g.(phase := Idle)]
  {
    var a2, a3 := SendAction(e, fate), CloseAction(e, fate);
    var w2 := Step(w, a2);
    assert w2.engines[e].phase == if fate.sendSucceeds then Marking(w.engines[e].phase.batch) else Refunding(w.engines[e].phase.batch);
    RunCons(w2, a3, []);
    RunCons(w, a2, [a3] + []);
    assert [a2] + ([a3] + []) == [a2, a3];
  }

  /** One payout attempt, whatever fails in it. */
  lemma AttemptIsARun(w: World, e: nat, batch: int, locked: set<string>, fate: Fate) returns (run: seq<Action>)
    requires IsIdle(w, e) && forall b :: b in w.t.batches ==> b < batch
    requires Payable(w.t, w.engines[e].pool, w.engines[e].cfg.minPayout, locked) != map[]
    ensures ValidRun(w, run)
    ensures var g := w.engines[e]; var items := Payable(w.t, g.pool, g.cfg.minPayout, locked);
      EndsWith(w, After(w, run), AfterSend(OpenBatch(w.t, g.pool, batch, items), g.pool, batch, fate))
  {
    var a1 := BatchCommit(e, batch, locked);
    var w1 := Step(w, a1);
    SendAndClose(w1, e, fate);
    RunCons(w, a1, [SendAction(e, fate), CloseAction(e, fate)]);
    run := [a1] + [SendAction(e, fate), CloseAction(e, fate)];
    assert After(w, run).engines == w.engines;
  }

  /** Draining the mature blocks. */
  lemma {:induction false} DrainIsARun(w: World, e: nat) returns (run: seq<Action>)
    requires IsIdle(w, e)
    ensures ValidRun(w, run)
    ensures EndsWith(w, After(w, run), Drain(w.t, w.engines[e].cfg, w.engines[e].pool).t)
    decreases UnsettledIds(w.t, w.engines[e].pool)
  {
    var g := w.engines[e];
    var ids := UnsettledIds(w.t, g.pool);
    if ids == {} {
      run := [];
    } else {
      var id := Lowest(ids);
      if Outcome(w.t, g.cfg, g.pool, id).Refused? {
        run := [];
      } else {
        var plan := Outcome(w.t, g.cfg, g.pool, id).plan;
        var w1 := Step(w, SettleSelect(e, id));
        assert w1.engines[e].phase == Settling(id) && w1.t == w.t;
        var w2 := Step(w1, SettleCommit(e));
        assert w2.engines == w.engines;
        SettleShrinks(w.t, g.pool, id, g.cfg.reward, plan);
        var rest := DrainIsARun(w2, e);
        RunCons(w1, SettleCommit(e), rest);
        RunCons(w, SettleSelect(e, id), [SettleCommit(e)] + rest);
        run := [SettleSelect(e, id)] + ([SettleCommit(e)] + rest);
      }
    }
  }

  lemma UpdateThenRest(t: Tables, pool: string, pending: set<int>, id: int, lookups: int -> Lookup, maturity: int)
    requires id in pending && (forall i :: i in pending ==> i in t.states) && t.states[id].pool == pool
    ensures SyncedPart(ApplyLookup(t, pool, id, lookups(id), maturity), pending - {id}, lookups, maturity)
      == SyncedPart(t, pending, lookups, maturity)
  {
    assert SyncedPart(ApplyLookup(t, pool, id, lookups(id), maturity), pending - {id}, lookups, maturity).states
      == SyncedPart(t, pending, lookups, maturity).states;
  }

  lemma {:induction false} UpdatesAreARun(w: World, e: nat, lookups: int -> Lookup) returns (run: seq<Action>)
    requires e in w.engines && w.engines[e].phase.Syncing?
    requires forall id :: id in w.engines[e].phase.pending ==> id in w.t.states && w.t.states[id].pool == w.engines[e].pool
    ensures ValidRun(w, run)
    ensures var g := w.engines[e];
      && After(w, run).t == SyncedPart(w.t, g.phase.pending, lookups, g.cfg.maturity)
      && After(w, run).engines == w.engines[e := g.(phase := Idle)]
    decreases w.engines[e].phase.pending
  {
    var g := w.engines[e];
    var pending := g.phase.pending;
    if pending == {} {
      RunCons(w, Stop(e), []);
      run := [Stop(e)] + [];
      assert SyncedPart(w.t, {}, lookups, g.cfg.maturity) == w.t;
    } else {
      var id := Pick(pending);
      var a := SyncUpdate(e, id, lookups(id));
      var w1 := Step(w, a);
      UpdateThenRest(w.t, g.pool, pending, id, lookups, g.cfg.maturity);
      var rest := UpdatesAreARun(w1, e, lookups);
      RunCons(w, a, rest);
      run := [a] + rest;
      assert w1.engines[e := w1.engines[e].(phase := Idle)] == w.engines[e := g.(phase := Idle)];
    }
  }

  /** One sync of all block states. */
  lemma SyncIsARun(w: World, e: nat, lookups: int -> Lookup) returns (run: seq<Action>)
    requires IsIdle(w, e)
    ensures ValidRun(w, run)
    ensures EndsWith(w, After(w, run), Synced(w.t, w.engines[e].pool, lookups, w.engines[e].cfg.maturity))
  {
    var w1 := Step(w, SyncInsert(e));
    assert w1.engines == w.engines;
    var w2 := Step(w1, SyncSelect(e));
    var rest := UpdatesAreARun(w2, e, lookups);
    RunCons(w1, SyncSelect(e), rest);
    RunCons(w, SyncInsert(e), [SyncSelect(e)] + rest);
    run := [SyncInsert(e)] + ([SyncSelect(e)] + rest);
    assert After(w, run).engines == w.engines;
  }
}
