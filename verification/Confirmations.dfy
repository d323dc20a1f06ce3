/** What a lookup of a block's confirmations does to the block, and that nothing is settled without enough of them. */
module Confirmations {
  import opened Database
  import opened Ledger
  import opened LedgerTheorems
  import opened PayoutEngine

  // ----- one sync -----

  /** A block of the pool whose status is not final. */
  ghost predicate IsOpen(t: Tables, pool: string, id: int) {
    id in t.states && t.states[id].pool == pool && !Final(t.states[id].status)
  }

  /** A block share with a hash that has no state yet. */
  ghost predicate IsNew(t: Tables, pool: string, id: int) {
    && id !in t.states && id in t.shares && t.shares[id].pool == pool && t.shares[id].isBlock
    && t.shares[id].hash.Some? && t.shares[id].hash.value != ""
  }

  /** The new status is what the daemon's answer says; a failed lookup leaves the old one. */
  ghost predicate FollowsLookup(before: Status, after: Status, l: Lookup, maturity: int) {
    if l.LookupError? then after == before
    else
      && (after == Mature <==> l.Confirmations? && l.n >= 0 && l.n >= maturity)
      && (after == Immature <==> l.Confirmations? && 0 < l.n < maturity)
      && (after == Found <==> l.Confirmations? && l.n == 0 < maturity)
      && (after == Orphan <==> l.Missing? || l.n < 0)
  }

  /** A sync adds the pool's new blocks, gives every open block the status its own lookup says, and changes nothing else. */
  lemma SyncFollowsLookups(t: Tables, pool: string, lookups: int -> Lookup, maturity: int, id: int)
    ensures var t' := Synced(t, pool, lookups, maturity);
      && t' == t.(states := t'.states)
      && (id in t'.states <==> id in t.states || IsNew(t, pool, id))
      && (id in t.states && !IsOpen(t, pool, id) ==> t'.states[id] == t.states[id])
      && (IsOpen(t, pool, id) || IsNew(t, pool, id) ==>
            && t'.states[id].pool == pool
            && FollowsLookup(if id in t.states then t.states[id].status else Found, t'.states[id].status, lookups(id), maturity))
  {
  }

  /** The same for one UPDATE of the state machine. */
  lemma UpdateFollowsLookup(t: Tables, pool: string, id: int, l: Lookup, maturity: int)
    requires id in t.states && t.states[id].pool == pool
    ensures var t' := ApplyLookup(t, pool, id, l, maturity);
      && id in t'.states && t'.states[id].pool == pool
      && FollowsLookup(t.states[id].status, t'.states[id].status, l, maturity)
      && t' == t.(states := t.states[id := t'.states[id]])
  {
    assert l.LookupError? ==> t.states == t.states[id := t.states[id]];
  }

  // ----- runs -----

  /** The step in which an engine of the pool learns that the block has as many confirmations as it asks for. */
  ghost predicate Confirms(engines: map<nat, Engine>, a: Action, pool: string, id: int) {
    && a.SyncUpdate? && a.id == id && a.e in engines && engines[a.e].pool == pool
    && a.lookup.Confirmations? && a.lookup.n >= 0 && a.lookup.n >= engines[a.e].cfg.maturity
  }

  ghost predicate ConfirmedIn(engines: map<nat, Engine>, run: seq<Action>, pool: string, id: int) {
    exists j :: 0 <= j < |run| && Confirms(engines, run[j], pool, id)
  }

  ghost predicate SameEngines(before: map<nat, Engine>, after: map<nat, Engine>) {
    after.Keys == before.Keys && forall e :: e in before ==> after[e].pool == before[e].pool && after[e].cfg == before[e].cfg
  }

  /** Mature, being settled or credited: then confirmed. */
  ghost predicate MatureOk(engines: map<nat, Engine>, seen: seq<Action>, w: World) {
    && SameEngines(engines, w.engines)
    && (forall id :: id in w.t.states && w.t.states[id].status == Mature ==> ConfirmedIn(engines, seen, w.t.states[id].pool, id))
    && (forall e :: e in w.engines && w.engines[e].phase.Settling? ==>
          ConfirmedIn(engines, seen, w.engines[e].pool, w.engines[e].phase.block))
    && (forall i :: 0 <= i < |w.credits| ==> ConfirmedIn(engines, seen, w.credits[i].pool, w.credits[i].block))
  }

  lemma SeenMore(engines: map<nat, Engine>, seen: seq<Action>, a: Action, pool: string, id: int)
    ensures ConfirmedIn(engines, seen, pool, id) ==> ConfirmedIn(engines, seen + [a], pool, id)
    ensures Confirms(engines, a, pool, id) ==> ConfirmedIn(engines, seen + [a], pool, id)
  {
    if j :| 0 <= j < |seen| && Confirms(engines, seen[j], pool, id) {
      assert (seen + [a])[j] == seen[j];
    }
    assert (seen + [a])[|seen|] == a;
  }

  /** Only an update with enough confirmations makes a block mature. */
  lemma NewlyMature(w: World, a: Action, id: int)
    requires Enabled(w, a) && id in Step(w, a).t.states && Step(w, a).t.states[id].status == Mature
    ensures (id in w.t.states && w.t.states[id] == Step(w, a).t.states[id])
      || Confirms(w.engines, a, Step(w, a).t.states[id].pool, id)
  {
  }

  lemma NewlySettling(w: World, a: Action, e: nat)
    requires Enabled(w, a) && e in w.engines && Step(w, a).engines[e].phase.Settling?
    ensures var b := Step(w, a).engines[e].phase.block;
      w.engines[e].phase == Settling(b)
      || (b in w.t.states && w.t.states[b].status == Mature && w.t.states[b].pool == w.engines[e].pool)
  {
  }

  lemma NewlyCredited(w: World, a: Action, i: nat)
    requires Enabled(w, a) && i < |Step(w, a).credits|
    ensures var c := Step(w, a).credits[i];
      (i < |w.credits| && w.credits[i] == c)
      || (a.SettleCommit? && w.engines[a.e].phase == Settling(c.block) && w.engines[a.e].pool == c.pool)
  {
  }

  lemma StepSameEngines(w: World, a: Action)
    requires Enabled(w, a)
    ensures SameEngines(w.engines, Step(w, a).engines)
  {
  }

  lemma StepKeepsMatureOk(engines: map<nat, Engine>, seen: seq<Action>, w: World, a: Action)
    requires MatureOk(engines, seen, w) && Enabled(w, a)
    ensures MatureOk(engines, seen + [a], Step(w, a))
  {
    var w' := Step(w, a);
    StepSameEngines(w, a);
    forall id | id in w'.t.states && w'.t.states[id].status == Mature
      ensures ConfirmedIn(engines, seen + [a], w'.t.states[id].pool, id)
    {
      NewlyMature(w, a, id);
      SeenMore(engines, seen, a, w'.t.states[id].pool, id);
    }
    forall e | e in w'.engines && w'.engines[e].phase.Settling?
      ensures ConfirmedIn(engines, seen + [a], w'.engines[e].pool, w'.engines[e].phase.block)
    {
      NewlySettling(w, a, e);
      SeenMore(engines, seen, a, w'.engines[e].pool, w'.engines[e].phase.block);
    }
    forall i | 0 <= i < |w'.credits| ensures ConfirmedIn(engines, seen + [a], w'.credits[i].pool, w'.credits[i].block) {
      NewlyCredited(w, a, i);
      SeenMore(engines, seen, a, w'.credits[i].pool, w'.credits[i].block);
    }
  }

  lemma {:induction false} RunKeepsMatureOk(engines: map<nat, Engine>, seen: seq<Action>, w: World, run: seq<Action>)
    requires MatureOk(engines, seen, w) && ValidRun(w, run)
    ensures MatureOk(engines, seen + run, After(w, run))
    decreases run
  {
    if run == [] {
      assert seen + run == seen;
    } else {
      StepKeepsMatureOk(engines, seen, w, run[0]);
      RunKeepsMatureOk(engines, seen + [run[0]], Step(w, run[0]), run[1..]);
      assert seen + [run[0]] + run[1..] == seen + run;
    }
  }

  lemma {:induction false} RunSplit(w: World, run: seq<Action>, k: nat)
    requires ValidRun(w, run) && k < |run|
    ensures ValidRun(w, run[..k]) && Enabled(After(w, run[..k]), run[k])
    decreases k
  {
    if k > 0 {
      RunSplit(Step(w, run[0]), run[1..], k - 1);
      assert run[..k][0] == run[0] && run[..k][1..] == run[1..][..k - 1];
    }
  }

  /** In every run, an engine only starts to settle a block after an engine of its pool was told that the block has the
      confirmations its configuration asks for. */
  lemma SettlingNeedsConfirmations(w0: World, run: seq<Action>, k: nat)
    requires Init(w0) && ValidRun(w0, run) && k < |run| && run[k].SettleSelect?
    ensures run[k].e in w0.engines && ConfirmedIn(w0.engines, run[..k], w0.engines[run[k].e].pool, run[k].id)
  {
    RunSplit(w0, run, k);
    RunKeepsMatureOk(w0.engines, [], w0, run[..k]);
    assert [] + run[..k] == run[..k];
    var w := After(w0, run[..k]);
    assert Unsettled(w.t, w.engines[run[k].e].pool, run[k].id);
  }

  /** And every credit of every run belongs to a block that was confirmed before. */
  lemma EveryCreditWasConfirmed(w0: World, run: seq<Action>, w: World, i: nat)
    requires Reachable(w0, run, w) && i < |w.credits|
    ensures ConfirmedIn(w0.engines, run, w.credits[i].pool, w.credits[i].block)
  {
    RunKeepsMatureOk(w0.engines, [], w0, run);
    assert [] + run == run;
  }
}
