/** Where the records in the share store come from: the submission, the verdict and the time of one handling. */
module Records {
  import opened Options
  import opened Vardiff
  import opened Session
  import opened Stratum
  import Work

  // ----- states along a run -----

  ghost function StateAt(cfg: DiffConfig, l: Link, run: seq<Action>, n: nat): Link
    requires ValidRun(cfg, l, run) && n <= |run|
    decreases n
  {
    if n == 0 then l else StateAt(cfg, Step(cfg, l, run[0]), run[1..], n - 1)
  }

  lemma {:induction false} StateAtNext(cfg: DiffConfig, l: Link, run: seq<Action>, n: nat)
    requires ValidRun(cfg, l, run) && n < |run|
    ensures Enabled(StateAt(cfg, l, run, n), run[n])
    ensures StateAt(cfg, l, run, n + 1) == Step(cfg, StateAt(cfg, l, run, n), run[n])
    decreases n
  {
    if n > 0 {
      StateAtNext(cfg, Step(cfg, l, run[0]), run[1..], n - 1);
    }
  }

  lemma {:induction false} StateAtEnd(cfg: DiffConfig, l: Link, run: seq<Action>)
    requires ValidRun(cfg, l, run)
    ensures StateAt(cfg, l, run, |run|) == After(cfg, l, run)
    decreases run
  {
    if run != [] {
      StateAtEnd(cfg, Step(cfg, l, run[0]), run[1..]);
    }
  }

  // ----- the handling behind a record -----

  /** Step `i` read the submission `s`, with these fields of the connection, and no other was read before step `n`. */
  ghost predicate ReadAt(cfg: DiffConfig, run: seq<Action>, i: nat, n: nat, s: Submission, worker: string, authorized: bool,
                         job: string, given: real)
    requires ValidRun(cfg, Fresh(cfg), run) && n <= |run|
  {
    && i < n && run[i] == Submit(s) && (forall k :: i < k < n ==> !run[k].Submit?)
    && var c := StateAt(cfg, Fresh(cfg), run, i).c;
      c.worker == worker && c.authorized == authorized && c.currentJob == job && c.diff == given
  }

  ghost predicate JudgedAt(run: seq<Action>, i: nat, j: nat, n: nat, hash: string, isBlock: bool) {
    i < j < n <= |run| && run[j] == Judge(Work.Accepted(hash, isBlock))
  }

  /** The reader's local variables stem from the last submission read. */
  ghost predicate PcTraced(cfg: DiffConfig, run: seq<Action>, n: nat, pc: Pc)
    requires ValidRun(cfg, Fresh(cfg), run) && n <= |run|
  {
    match pc
    case Checking(s, worker, authorized, job, given) => exists i :: ReadAt(cfg, run, i, n, s, worker, authorized, job, given)
    case Validating(s, worker, given) => s.jobId != "" && exists i :: ReadAt(cfg, run, i, n, s, worker, true, s.jobId, given)
    case Storing(s, worker, given, hash, isBlock) =>
      s.jobId != "" && exists i, j :: ReadAt(cfg, run, i, n, s, worker, true, s.jobId, given) && JudgedAt(run, i, j, n, hash, isBlock)
    case _ => true
  }

  /** Record `r` was stored in step `k`, for the submission read in step `i` and judged in step `j`. The submission named
      the connection's current job, the miner was authorized, and worker and difficulty are those of that moment. */
  ghost predicate Handled(cfg: DiffConfig, run: seq<Action>, i: nat, j: nat, k: nat, r: Record)
    requires ValidRun(cfg, Fresh(cfg), run)
  {
    && i < j < k < |run| && run[i].Submit? && run[j].Judge? && run[j].verdict.Accepted? && run[k].Store?
    && (forall m :: i < m < k ==> !run[m].Submit?)
    && var c := StateAt(cfg, Fresh(cfg), run, i).c;
      && c.authorized && run[i].s.jobId == c.currentJob != ""
      && r == Record(c.worker, c.diff, run[k].now, run[j].verdict.isBlock, Key(run[i].s), run[j].verdict.hash)
  }

  ghost predicate Traced(cfg: DiffConfig, run: seq<Action>, n: nat, r: Record)
    requires ValidRun(cfg, Fresh(cfg), run)
  {
    exists i: nat, j: nat, k: nat :: k < n && Handled(cfg, run, i, j, k, r)
  }

  lemma ReadStays(cfg: DiffConfig, run: seq<Action>, i: nat, n: nat, s: Submission, worker: string, authorized: bool,
                  job: string, given: real)
    requires ValidRun(cfg, Fresh(cfg), run) && n < |run| && !run[n].Submit?
    requires ReadAt(cfg, run, i, n, s, worker, authorized, job, given)
    ensures ReadAt(cfg, run, i, n + 1, s, worker, authorized, job, given)
  {
  }

  lemma PcStaysTraced(cfg: DiffConfig, run: seq<Action>, n: nat)
    requires ValidRun(cfg, Fresh(cfg), run) && n < |run|
    requires PcTraced(cfg, run, n, StateAt(cfg, Fresh(cfg), run, n).pc)
    ensures PcTraced(cfg, run, n + 1, StateAt(cfg, Fresh(cfg), run, n + 1).pc)
  {
    StateAtNext(cfg, Fresh(cfg), run, n);
    var l, a := StateAt(cfg, Fresh(cfg), run, n), run[n];
    if a.Submit? {
      assert ReadAt(cfg, run, n, n + 1, a.s, l.c.worker, l.c.authorized, l.c.currentJob, l.c.diff);
    } else if l.pc.Checking? {
      var i: nat :| ReadAt(cfg, run, i, n, l.pc.s, l.pc.worker, l.pc.authorized, l.pc.job, l.pc.given);
      ReadStays(cfg, run, i, n, l.pc.s, l.pc.worker, l.pc.authorized, l.pc.job, l.pc.given);
    } else if l.pc.Validating? {
      var i: nat :| ReadAt(cfg, run, i, n, l.pc.s, l.pc.worker, true, l.pc.s.jobId, l.pc.given);
      ReadStays(cfg, run, i, n, l.pc.s, l.pc.worker, true, l.pc.s.jobId, l.pc.given);
      if a.Judge? && a.verdict.Accepted? {
        assert JudgedAt(run, i, n, n + 1, a.verdict.hash, a.verdict.isBlock);
      }
    } else if l.pc.Storing? {
      var i: nat, j: nat :| ReadAt(cfg, run, i, n, l.pc.s, l.pc.worker, true, l.pc.s.jobId, l.pc.given)
        && JudgedAt(run, i, j, n, l.pc.hash, l.pc.isBlock);
      ReadStays(cfg, run, i, n, l.pc.s, l.pc.worker, true, l.pc.s.jobId, l.pc.given);
      assert JudgedAt(run, i, j, n + 1, l.pc.hash, l.pc.isBlock);
    }
  }

  /** A step that stores adds one record, which is traced; no other step touches the records. */
  lemma StepStores(cfg: DiffConfig, run: seq<Action>, n: nat)
    requires ValidRun(cfg, Fresh(cfg), run) && n < |run|
    requires PcTraced(cfg, run, n, StateAt(cfg, Fresh(cfg), run, n).pc)
    ensures var before, after := StateAt(cfg, Fresh(cfg), run, n).stored, StateAt(cfg, Fresh(cfg), run, n + 1).stored;
      if run[n].Store? then
        |after| == |before| + 1 && after[..|before|] == before && Traced(cfg, run, n + 1, after[|before|])
      else after == before
  {
    StateAtNext(cfg, Fresh(cfg), run, n);
    var l := StateAt(cfg, Fresh(cfg), run, n);
    if run[n].Store? {
      var pc := l.pc;
      var i, j :| ReadAt(cfg, run, i, n, pc.s, pc.worker, true, pc.s.jobId, pc.given) && JudgedAt(run, i, j, n, pc.hash, pc.isBlock);
      var r := StateAt(cfg, Fresh(cfg), run, n + 1).stored[|l.stored|];
      assert Handled(cfg, run, i, j, n, r);
    }
  }

  ghost function Stores(run: seq<Action>, n: nat): set<nat>
    requires n <= |run|
  {
    set k: nat | k < n && run[k].Store?
  }

  lemma {:induction false} AllTraced(cfg: DiffConfig, run: seq<Action>, n: nat)
    requires ValidRun(cfg, Fresh(cfg), run) && n <= |run|
    ensures var l := StateAt(cfg, Fresh(cfg), run, n);
      && PcTraced(cfg, run, n, l.pc)
      && |l.stored| == |Stores(run, n)|
      && forall m :: 0 <= m < |l.stored| ==> Traced(cfg, run, n, l.stored[m])
  {
    if n == 0 {
      assert Stores(run, 0) == {};
    } else {
      AllTraced(cfg, run, n - 1);
      PcStaysTraced(cfg, run, n - 1);
      StepStores(cfg, run, n - 1);
      OneMoreStore(run, n);
      var before, after := StateAt(cfg, Fresh(cfg), run, n - 1).stored, StateAt(cfg, Fresh(cfg), run, n).stored;
      forall m | 0 <= m < |after| ensures Traced(cfg, run, n, after[m]) {
        if m < |before| {
          assert after[m] == before[m];
          TracedLater(cfg, run, n, before[m]);
        }
      }
    }
  }

  lemma OneMoreStore(run: seq<Action>, n: nat)
    requires 0 < n <= |run|
    ensures |Stores(run, n)| == |Stores(run, n - 1)| + if run[n - 1].Store? then 1 else 0
  {
    assert Stores(run, n) == Stores(run, n - 1) + if run[n - 1].Store? then {n - 1} else {};
  }

  lemma TracedLater(cfg: DiffConfig, run: seq<Action>, n: nat, r: Record)
    requires ValidRun(cfg, Fresh(cfg), run) && n > 0 && Traced(cfg, run, n - 1, r)
    ensures Traced(cfg, run, n, r)
  {
    var i: nat, j: nat, k: nat :| k < n - 1 && Handled(cfg, run, i, j, k, r);
    assert k < n && Handled(cfg, run, i, j, k, r);
  }

  /** In every run there is one record per store step, and every record carries the key of a submission for the job that
      was current when it was read, the hash and the block flag of that submission's verdict, and the time of the store
      step, all of one handling. */
  lemma EveryRecordIsOfOneHandling(cfg: DiffConfig, run: seq<Action>)
    requires ValidRun(cfg, Fresh(cfg), run)
    ensures var stored := After(cfg, Fresh(cfg), run).stored;
      && |stored| == |Stores(run, |run|)|
      && forall m :: 0 <= m < |stored| ==> Traced(cfg, run, |run|, stored[m])
  {
    AllTraced(cfg, run, |run|);
    StateAtEnd(cfg, Fresh(cfg), run);
  }

  // ----- what a connection remembers -----

  /** The name in the last authorization. */
  ghost function LastAuthorized(run: seq<Action>): Option<string> {
    if run == [] then None
    else
      var a := run[|run| - 1];
      if a.Authorize? then Some(a.worker) else LastAuthorized(run[..|run| - 1])
  }

  /** The job in the last announcement of the connection's own request. */
  ghost function LastAnnounced(run: seq<Action>): Option<string> {
    if run == [] then None
    else
      var a := run[|run| - 1];
      if a.Announce? then a.current else LastAnnounced(run[..|run| - 1])
  }

  /** The last job pushed, or sent on the connection's own request. */
  ghost function LastJob(run: seq<Action>): string {
    if run == [] then ""
    else
      var a, before := run[|run| - 1], run[..|run| - 1];
      if a.PushJob? then a.jobId
      else if a.OwnJob? && LastAnnounced(before).Some? then LastAnnounced(before).value
      else LastJob(before)
  }

  ghost predicate Remembers(run: seq<Action>, l: Link) {
    && l.c.authorized == LastAuthorized(run).Some?
    && l.c.worker == (if LastAuthorized(run).Some? then LastAuthorized(run).value else "")
    && l.c.currentJob == LastJob(run)
    && (l.pc.SendingJob? ==> LastAnnounced(run) == Some(l.pc.jobId))
  }

  lemma StepRemembers(cfg: DiffConfig, seen: seq<Action>, l: Link, a: Action)
    requires Remembers(seen, l) && Enabled(l, a)
    ensures Remembers(seen + [a], Step(cfg, l, a))
  {
    assert (seen + [a])[..|seen|] == seen && (seen + [a])[|seen|] == a;
  }

  lemma {:induction false} RunRemembers(cfg: DiffConfig, seen: seq<Action>, l: Link, run: seq<Action>)
    requires Remembers(seen, l) && ValidRun(cfg, l, run)
    ensures Remembers(seen + run, After(cfg, l, run))
    decreases run
  {
    if run == [] {
      assert seen + run == seen;
    } else {
      StepRemembers(cfg, seen, l, run[0]);
      RunRemembers(cfg, seen + [run[0]], Step(cfg, l, run[0]), run[1..]);
      assert seen + [run[0]] + run[1..] == seen + run;
    }
  }

  /** In every run the worker is the one of the last authorization, the connection is authorized exactly if there was
      one, and the current job is the last one that was pushed or sent on request. */
  lemma ConnectionRemembersTheLast(cfg: DiffConfig, run: seq<Action>)
    requires ValidRun(cfg, Fresh(cfg), run)
    ensures Remembers(run, After(cfg, Fresh(cfg), run))
  {
    RunRemembers(cfg, [], Fresh(cfg), run);
    assert [] + run == run;
  }

  // ----- when a submission is stored -----

  lemma {:induction false} PushesForget(c: ConnState, ids: seq<string>)
    ensures Pushed(c, ids) == c.(currentJob := Pushed(c, ids).currentJob, submitted := if ids == [] then c.submitted else {})
    decreases ids
  {
    if ids != [] {
      PushesForget(WithJob(c, ids[0]), ids[1..]);
    }
  }

  /** Handling a submission stores a record exactly if the miner is authorized, the submission names the current job, its
      key is not among the remembered ones - of which a job pushed meanwhile leaves none - and the validator accepts. */
  lemma SubmitStoresIff(cfg: DiffConfig, l: Link, s: Submission, v: Work.Verdict, now: Time, ok: bool, jobs: Arrivals)
    requires l.pc.Ready? && now > 0 && NoLater(l.history, now)
    ensures SubmitOutcome(cfg, l, s, v, now, ok, jobs).stored
      == if l.c.authorized && s.jobId == l.c.currentJob && s.jobId != "" && v.Accepted?
            && (jobs.beforeMark != [] || Key(s) !in l.c.submitted)
         then l.stored + [Record(l.c.worker, l.c.diff, now, v.isBlock, Key(s), v.hash)]
         else l.stored
  {
    PushesForget(l.c, jobs.beforeMark);
  }
}
