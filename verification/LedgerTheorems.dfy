/** Safety of the ledger over every run of every number of engines. */
module LedgerTheorems {
  import opened Sums
  import opened Apportionment
  import opened Database
  import opened Plans
  import opened Ledger
  import opened LedgerInvariant

  ghost predicate Reachable(w0: World, run: seq<Action>, w: World) {
    Init(w0) && ValidRun(w0, run) && w == After(w0, run)
  }

  lemma ReachableInv(w0: World, run: seq<Action>, w: World)
    requires Reachable(w0, run, w)
    ensures Inv(w)
  {
    InitInv(w0);
    RunKeepsInv(w0, run);
  }

  // ----- conservation -----

  /** In every reachable state and every pool: rewards of the settled blocks = balances + pending and sent payouts.
      No balance is negative, and every batch total is the sum of its items. */
  lemma MoneyIsConserved(w0: World, run: seq<Action>, w: World, p: string)
    requires Reachable(w0, run, w)
    ensures Credited(w.t, p) == Held(w.t, p) + InBatches(w.t, p, {Pending}) + InBatches(w.t, p, {Sent})
    ensures forall a :: a in w.t.balances ==> w.t.balances[a] >= 0
    ensures forall b :: b in w.t.batches ==> w.t.batches[b].total == Amounts(w.t.batches[b].items)
  {
    ReachableInv(w0, run, w);
    assert ConservedIn(w.t, p);
    PendingPlusSent(w.t.batches, p);
    forall b | b in w.t.batches ensures w.t.batches[b].total == Amounts(w.t.batches[b].items) {
      assert BatchOk(w.t.balances, w.t.batches[b]);
    }
  }

  // ----- exactly-once settlement -----

  ghost function TimesCredited(credits: seq<CreditRecord>, id: int): nat {
    if credits == [] then 0
    else TimesCredited(credits[..|credits| - 1], id) + if credits[|credits| - 1].block == id then 1 else 0
  }

  lemma {:induction false} TimesCreditedIs(credits: seq<CreditRecord>, id: int)
    requires forall i, j :: 0 <= i < j < |credits| ==> credits[i].block != credits[j].block
    ensures TimesCredited(credits, id) == if exists i :: 0 <= i < |credits| && credits[i].block == id then 1 else 0
  {
    if credits != [] {
      var init := credits[..|credits| - 1];
      TimesCreditedIs(init, id);
      assert forall i :: 0 <= i < |init| ==> init[i] == credits[i];
      if i :| 0 <= i < |init| && init[i].block == id {
        assert credits[i].block == id;
      }
    }
  }

  /** Even with several engines on one pool and stale status updates, a block credits balances exactly once if it has a
      settlement row and never otherwise; and the row is what planning the block again would write today. */
  lemma BlocksAreCreditedExactlyOnce(w0: World, run: seq<Action>, w: World, id: int)
    requires Reachable(w0, run, w)
    ensures TimesCredited(w.credits, id) == if id in w.t.settlements then 1 else 0
    ensures forall i :: 0 <= i < |w.credits| ==> Audited(w.t.shares, w.t.settlements, w.credits[i])
  {
    ReachableInv(w0, run, w);
    TimesCreditedIs(w.credits, id);
    if i :| 0 <= i < |w.credits| && w.credits[i].block == id {
      assert Audited(w.t.shares, w.t.settlements, w.credits[i]);
    }
  }

  /** The sum credited for a block is its recorded miner reward. */
  lemma CreditIsTheReward(w0: World, run: seq<Action>, w: World, i: nat)
    requires Reachable(w0, run, w) && i < |w.credits|
    ensures w.credits[i].block in w.t.settlements
    ensures Amounts(w.credits[i].plan.alloc) == w.t.settlements[w.credits[i].block].minerReward > 0
  {
    ReachableInv(w0, run, w);
    var c := w.credits[i];
    assert Audited(w.t.shares, w.t.settlements, c);
    PlanDistributesReward(w.t.shares, c.cfg, c.pool, c.block);
  }

  // ----- rounds -----

  ghost predicate Earns(row: SettlementRow, s: int) {
    row.roundStart <= s <= row.roundEnd
  }

  /** No share earns in two settlements of its pool. */
  lemma NoShareEarnsTwice(w0: World, run: seq<Action>, w: World, b: int, c: int, s: int)
    requires Reachable(w0, run, w)
    requires b in w.t.settlements && c in w.t.settlements && w.t.settlements[b].pool == w.t.settlements[c].pool
    requires Earns(w.t.settlements[b], s) && Earns(w.t.settlements[c], s)
    ensures b == c
  {
    ReachableInv(w0, run, w);
    SettledRound(w, b);
    SettledRound(w, c);
    RoundsAreDisjoint(w.t.shares, w.t.settlements[b].pool, b, c, s);
  }

  /** A settlement's id range lies within the block's round, also for solo blocks. */
  lemma SettledRound(w: World, b: int)
    requires Inv(w) && b in w.t.settlements
    ensures var row := w.t.settlements[b];
      && IsBlockOf(w.t.shares, row.pool, b) && b >= 1
      && PreviousBlock(w.t.shares, row.pool, b) < row.roundStart <= row.roundEnd == b
  {
    var i :| 0 <= i < |w.credits| && w.credits[i].block == b;
    var c := w.credits[i];
    assert Audited(w.t.shares, w.t.settlements, c);
    PlannedRound(w.t.shares, c.cfg, c.pool, c.block);
  }

  lemma PlannedRound(shares: map<int, ShareRow>, cfg: Config, pool: string, id: int)
    requires id in shares && id >= 1 && PlanSettlement(shares, cfg, pool, id).Planned?
    ensures var plan := PlanSettlement(shares, cfg, pool, id).plan;
      PreviousBlock(shares, pool, id) < plan.roundStart <= plan.roundEnd == id
  {
  }

  // ----- the wallet -----

  ghost function PaidBy(sends: map<int, SendRecord>, p: string): int -> int {
    b => if b in sends && sends[b].pool == p then sends[b].paid else 0
  }

  /** Everything the wallet paid for a pool. */
  ghost function WalletPaid(w: World, p: string): int {
    Sum(w.sends.Keys, PaidBy(w.sends, p))
  }

  /** If an error of SendMany means that nothing was paid, then at every moment, also between sending and marking:
      sent items <= paid <= sent + pending items; a batch is sent at most once; and payments plus balances never
      exceed what was credited. */
  lemma WalletSandwich(w0: World, run: seq<Action>, w: World, p: string)
    requires Reachable(w0, run, w)
    ensures InBatches(w.t, p, {Sent}) <= WalletPaid(w, p) <= InBatches(w.t, p, {Sent}) + InBatches(w.t, p, {Pending})
    ensures forall b :: b in w.sends ==> w.sends[b].calls == 1
    ensures WalletPaid(w, p) + Held(w.t, p) <= Credited(w.t, p)
  {
    ReachableInv(w0, run, w);
    forall b | b in w.sends ensures w.sends[b].calls == 1 {
      assert SendOkFor(w.t.batches, b, w.sends[b]);
    }
    PaidSandwich(w.t.balances, w.t.batches, w.sends, p);
    MoneyIsConserved(w0, run, w, p);
  }

  lemma PaidSandwich(balances: map<Account, int>, batches: map<int, BatchRow>, sends: map<int, SendRecord>, p: string)
    requires BatchesOk(balances, batches) && SendsOk(batches, sends)
    ensures Sum(batches.Keys, ItemsOf(batches, p, {Sent})) <= Sum(sends.Keys, PaidBy(sends, p))
    ensures Sum(sends.Keys, PaidBy(sends, p))
      <= Sum(batches.Keys, ItemsOf(batches, p, {Sent})) + Sum(batches.Keys, ItemsOf(batches, p, {Pending}))
  {
    forall b | b in sends ensures b in batches {
      assert SendOkFor(batches, b, sends[b]);
    }
    SumExtend(sends.Keys, batches.Keys, PaidBy(sends, p));
    forall b | b in batches
      ensures ItemsOf(batches, p, {Sent})(b) <= PaidBy(sends, p)(b) <= ItemsOf(batches, p, {Pending, Sent})(b)
    {
      BatchSandwich(balances, batches, sends, p, b);
    }
    SumLe(batches.Keys, ItemsOf(batches, p, {Sent}), PaidBy(sends, p));
    SumLe(batches.Keys, PaidBy(sends, p), ItemsOf(batches, p, {Pending, Sent}));
    PendingPlusSent(batches, p);
  }

  lemma PendingPlusSent(batches: map<int, BatchRow>, p: string)
    ensures Sum(batches.Keys, ItemsOf(batches, p, {Pending, Sent}))
      == Sum(batches.Keys, ItemsOf(batches, p, {Pending})) + Sum(batches.Keys, ItemsOf(batches, p, {Sent}))
  {
    SumPlus(batches.Keys, ItemsOf(batches, p, {Pending, Sent}), ItemsOf(batches, p, {Pending}), ItemsOf(batches, p, {Sent}));
  }

  lemma BatchSandwich(balances: map<Account, int>, batches: map<int, BatchRow>, sends: map<int, SendRecord>, p: string, b: int)
    requires b in batches && BatchOk(balances, batches[b]) && SendsOk(batches, sends)
    ensures ItemsOf(batches, p, {Sent})(b) <= PaidBy(sends, p)(b) <= ItemsOf(batches, p, {Pending, Sent})(b)
  {
    ItemsNonNegative(batches[b].items);
    assert b in sends ==> SendOkFor(batches, b, sends[b]);
  }

  lemma ItemsNonNegative(items: map<string, int>)
    requires forall w :: w in items ==> items[w] > 0
    ensures Amounts(items) >= 0
  {
    var zero: string -> int := _ => 0;
    SumLe(items.Keys, zero, At(items));
    ZeroIsZero(items.Keys, zero);
  }

  lemma {:induction false} ZeroIsZero(s: set<string>, f: string -> int)
    requires forall x :: f(x) == 0
    ensures Sum(s, f) == 0
  {
    if s != {} {
      ZeroIsZero(s - {Pick(s)}, f);
    }
  }

  // ----- one engine per pool: final statuses -----

  ghost predicate OneEnginePerPool(engines: map<nat, Engine>) {
    forall e, f :: e in engines && f in engines && engines[e].pool == engines[f].pool ==> e == f
  }

  /** A block is marked settled if and only if its settlement row exists. */
  ghost predicate SettledIffRow(t: Tables) {
    forall id :: id in t.settlements <==> id in t.states && t.states[id].status == Settled
  }

  ghost predicate HasOpen(states: map<int, StateRow>, pool: string, id: int) {
    id in states && states[id].pool == pool && states[id].status in {Found, Immature, Mature}
  }

  ghost predicate Fresh(states: map<int, StateRow>, g: Engine) {
    && (g.phase.Syncing? ==> forall id :: id in g.phase.pending ==> HasOpen(states, g.pool, id))
    && (g.phase.Settling? ==> HasOpen(states, g.pool, g.phase.block))
  }

  ghost predicate SoleInv(w: World) {
    Inv(w) && SoleEngines(w.t, w.engines)
  }

  ghost predicate SoleEngines(t: Tables, engines: map<nat, Engine>) {
    && OneEnginePerPool(engines) && SettledIffRow(t)
    && forall e :: e in engines ==> Fresh(t.states, engines[e])
  }

  ghost predicate Final(s: Status) {
    s == Orphan || s == Settled
  }

  /** Statuses that are final in `before` are unchanged in `after`. */
  ghost predicate FinalKept(before: map<int, StateRow>, after: map<int, StateRow>) {
    forall id :: id in before ==>
      id in after && after[id].pool == before[id].pool && (Final(before[id].status) ==> after[id].status == before[id].status)
  }

  lemma SoleStep(w: World, a: Action)
    requires SoleInv(w) && Enabled(w, a)
    ensures SoleInv(Step(w, a))
    ensures FinalKept(w.t.states, Step(w, a).t.states)
  {
    StepKeepsInv(w, a);
    match a
    case SettleCommit(_) => SoleSettle(w, a);
    case SyncInsert(_) => SoleSyncInsert(w, a);
    case SyncUpdate(_, _, _) => SoleSyncUpdate(w, a);
    case _ => SoleOther(w, a);
  }

  lemma SoleSettle(w: World, a: Action)
    requires SoleEngines(w.t, w.engines) && a.SettleCommit? && Enabled(w, a)
    ensures SoleEngines(Step(w, a).t, Step(w, a).engines) && FinalKept(w.t.states, Step(w, a).t.states)
  {
    var g := w.engines[a.e];
    assert Fresh(w.t.states, g);
    OthersStayFresh(w, a.e, g.phase.block, Settled, Idle);
  }

  lemma SoleSyncUpdate(w: World, a: Action)
    requires SoleEngines(w.t, w.engines) && a.SyncUpdate? && Enabled(w, a)
    ensures SoleEngines(Step(w, a).t, Step(w, a).engines) && FinalKept(w.t.states, Step(w, a).t.states)
  {
    var g := w.engines[a.e];
    assert Fresh(w.t.states, g);
    var next := NextStatus(a.lookup, g.cfg.maturity);
    if next.Some? {
      OthersStayFresh(w, a.e, a.id, next.value, Syncing(g.phase.pending - {a.id}));
    }
  }

  /** Changing the status of a block of the pool's only engine leaves the other engines' knowledge valid. */
  lemma OthersStayFresh(w: World, e: nat, id: int, s: Status, phase: Phase)
    requires SoleEngines(w.t, w.engines) && e in w.engines && HasOpen(w.t.states, w.engines[e].pool, id)
    requires phase == Idle || (w.engines[e].phase.Syncing? && phase == Syncing(w.engines[e].phase.pending - {id}))
    ensures var states := w.t.states[id := w.t.states[id].(status := s)];
      var engines := w.engines[e := w.engines[e].(phase := phase)];
      && FinalKept(w.t.states, states)
      && forall f :: f in engines ==> Fresh(states, engines[f])
  {
    var states := w.t.states[id := w.t.states[id].(status := s)];
    var engines := w.engines[e := w.engines[e].(phase := phase)];
    forall f | f in engines ensures Fresh(states, engines[f]) {
      assert Fresh(w.t.states, w.engines[f]);
      if f != e {
        assert w.engines[f].pool != w.engines[e].pool;
      }
    }
  }

  lemma SoleSyncInsert(w: World, a: Action)
    requires SoleEngines(w.t, w.engines) && a.SyncInsert? && Enabled(w, a)
    ensures SoleEngines(Step(w, a).t, Step(w, a).engines) && FinalKept(w.t.states, Step(w, a).t.states)
  {
    forall e | e in w.engines ensures Fresh(Step(w, a).t.states, Step(w, a).engines[e]) {
      assert Fresh(w.t.states, w.engines[e]);
    }
  }

  lemma SoleOther(w: World, a: Action)
    requires SoleEngines(w.t, w.engines) && !a.SettleCommit? && !a.SyncInsert? && !a.SyncUpdate? && Enabled(w, a)
    ensures SoleEngines(Step(w, a).t, Step(w, a).engines) && FinalKept(w.t.states, Step(w, a).t.states)
  {
    assert Step(w, a).t.states == w.t.states && Step(w, a).t.settlements == w.t.settlements;
    forall e | e in w.engines ensures Fresh(w.t.states, Step(w, a).engines[e]) {
      assert Fresh(w.t.states, w.engines[e]);
    }
  }

  /** With one engine per pool, orphan and settled are absorbing over every run, and settled holds iff the row exists. */
  lemma {:induction false} FinalStatusesAreAbsorbing(w: World, run: seq<Action>, id: int)
    requires SoleInv(w) && ValidRun(w, run) && id in w.t.states && Final(w.t.states[id].status)
    ensures SoleInv(After(w, run))
    ensures id in After(w, run).t.states && After(w, run).t.states[id].status == w.t.states[id].status
    decreases run
  {
    if run != [] {
      SoleStep(w, run[0]);
      FinalStatusesAreAbsorbing(Step(w, run[0]), run[1..], id);
    }
  }

  lemma {:induction false} SettledIffRowAlways(w: World, run: seq<Action>)
    requires SoleInv(w) && ValidRun(w, run)
    ensures SoleInv(After(w, run)) && SettledIffRow(After(w, run).t)
    decreases run
  {
    if run != [] {
      SoleStep(w, run[0]);
      SettledIffRowAlways(Step(w, run[0]), run[1..]);
    }
  }

  lemma InitIsSole(w: World)
    requires Init(w) && OneEnginePerPool(w.engines)
    ensures SoleInv(w)
  {
    InitInv(w);
  }
}
