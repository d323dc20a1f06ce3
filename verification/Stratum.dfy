/** A Stratum connection as the server holds it: fields changed in place, one lock section at a time. */
module Stratum {
  import opened Options
  import opened Vardiff
  import opened Session
  import Work

  /** The jobs that other goroutines push while a submission is handled: before the duplicate test, before the record
      is stored, and before the retarget. */
  datatype Arrivals = Arrivals(beforeMark: seq<string>, beforeStore: seq<string>, beforeRetarget: seq<string>)

  function Pushed(c: ConnState, ids: seq<string>): ConnState
    decreases ids
  {
    if ids == [] then c else Pushed(WithJob(c, ids[0]), ids[1..])
  }

  function WithPushes(l: Link, ids: seq<string>): Link {
    l.(c := Pushed(l.c, ids))
  }

  /** A whole submission in the steps of the state machine. */
  function SubmitOutcome(cfg: DiffConfig, l: Link, s: Submission, v: Work.Verdict, now: Time, stored: bool, jobs: Arrivals): Link
    requires l.pc.Ready? && now > 0 && NoLater(l.history, now)
  {
    var checked := Step(cfg, WithPushes(Step(cfg, l, Submit(s)), jobs.beforeMark), Check);
    if checked.pc.Ready? then checked
    else JudgeOutcome(cfg, WithPushes(checked, jobs.beforeStore), v, now, stored, jobs.beforeRetarget)
  }

  function JudgeOutcome(cfg: DiffConfig, l: Link, v: Work.Verdict, now: Time, stored: bool, jobs: seq<string>): Link
    requires l.pc.Validating? && now > 0 && NoLater(l.history, now)
  {
    var judged := Step(cfg, l, Judge(v));
    if judged.pc.Ready? then judged else
    var kept := Step(cfg, judged, Store(now, stored));
    if kept.pc.Ready? then kept else RetargetOutcome(cfg, WithPushes(kept, jobs))
  }

  function RetargetOutcome(cfg: DiffConfig, l: Link): Link
    requires l.pc.Retargeting?
  {
    var adjusted := Step(cfg, l, Retarget);
    if adjusted.pc.Ready? then adjusted else Step(cfg, adjusted, Tell)
  }

  lemma {:induction false} PushedIsReachable(cfg: DiffConfig, l: Link, ids: seq<string>)
    requires Reachable(cfg, l)
    ensures Reachable(cfg, WithPushes(l, ids))
    decreases ids
  {
    if ids != [] {
      var l' := Advance(cfg, l, PushJob(ids[0]));
      PushedIsReachable(cfg, l', ids[1..]);
    } else {
      assert WithPushes(l, ids) == l;
    }
  }

  /** Handling a submission, whatever arrives meanwhile, is a run: every theorem about reachable links holds after it. */
  lemma SubmitOutcomeIsReachable(cfg: DiffConfig, l: Link, s: Submission, v: Work.Verdict, now: Time, stored: bool, jobs: Arrivals)
    requires Reachable(cfg, l) && l.pc.Ready? && now > 0 && NoLater(l.history, now)
    ensures Reachable(cfg, SubmitOutcome(cfg, l, s, v, now, stored, jobs))
  {
    var x := Advance(cfg, l, Submit(s));
    PushedIsReachable(cfg, x, jobs.beforeMark);
    x := Advance(cfg, WithPushes(x, jobs.beforeMark), Check);
    if x.pc.Validating? {
      PushedIsReachable(cfg, x, jobs.beforeStore);
      x := Advance(cfg, WithPushes(x, jobs.beforeStore), Judge(v));
      if x.pc.Storing? {
        x := Advance(cfg, x, Store(now, stored));
        if x.pc.Retargeting? {
          PushedIsReachable(cfg, x, jobs.beforeRetarget);
          x := Advance(cfg, WithPushes(x, jobs.beforeRetarget), Retarget);
          if x.pc.Telling? {
            x := Advance(cfg, x, Tell);
          }
        }
      }
    }
  }

  /** The arithmetic in the middle of retarget: target time over actual time per share, limited, then clamped. */
  method ProposeDiff(cfg: DiffConfig, interval: int, diff: real, shares: nat) returns (newDiff: real)
    requires interval == Interval(cfg) && shares > 0
    ensures newDiff == Proposed(cfg, diff, shares)
  {
    var target := if cfg.targetTime <= 0 then 10 else cfg.targetTime;
    var actual := interval as real / SECOND as real / shares as real;
    RateAsFactor(target, interval, shares);
    if actual <= 0.0 {
      assert false;
    }
    var factor := target as real / actual;
    if factor > 4.0 {
      factor := 4.0;
    }
    if factor < 0.25 {
      factor := 0.25;
    }
    assert factor == Factor(cfg, shares);
    newDiff := ClampDiff(cfg, Times(diff, factor));
  }

  class Conn {
    const cfg: DiffConfig
    var worker: string
    var authorized: bool
    var diff: real
    var currentJob: string
    var submitted: set<string>
    var acceptedAt: array<Time>
    var count: nat
    var lastAdjust: Time
    /** What went to the socket and to the share store. */
    var sent: seq<Message>
    var stored: seq<Record>
    ghost var history: seq<Time>
    ghost var changes: seq<Time>

    ghost predicate Valid()
      reads this
    {
      count <= acceptedAt.Length
    }

    ghost function State(): ConnState
      requires Valid()
      reads this, acceptedAt
    {
      ConnState(worker, authorized, diff, currentJob, submitted, acceptedAt[..count], lastAdjust)
    }

    ghost function Linked(): Link
      requires Valid()
      reads this, acceptedAt
    {
      Link(State(), Ready, sent, stored, history, changes)
    }

    constructor (cfg: DiffConfig)
      ensures Valid() && fresh(acceptedAt) && this.cfg == cfg && Linked() == Fresh(cfg)
    {
      this.cfg := cfg;
      worker, authorized, diff, currentJob, submitted := "", false, cfg.start, "", {};
      acceptedAt, count, lastAdjust := new Time[0], 0, 0;
      sent, stored, history, changes := [], [], [], [];
    }

    // ----- lock sections -----

    method SetAuthorized(name: string)
      requires Valid()
      modifies this`worker, this`authorized, this`diff
      ensures Valid() && State() == Authorized(cfg, old(State()), name)
    {
      worker := name;
      authorized := true;
      diff := PickStartDiff(cfg, name);
    }

    method SetJob(jobId: string)
      requires Valid()
      modifies this`currentJob, this`submitted
      ensures Valid() && State() == WithJob(old(State()), jobId)
    {
      currentJob := jobId;
      submitted := {};
    }

    method MarkSubmitted(key: string) returns (isNew: bool)
      requires Valid()
      modifies this`submitted
      ensures Valid() && isNew == (key !in old(submitted)) && State() == Marked(old(State()), key)
    {
      if key in submitted {
        assert submitted + {key} == submitted;
        return false;
      }
      submitted := submitted + {key};
      return true;
    }

    /** append: in place while there is room, into a larger array otherwise. */
    method Append(t: Time)
      requires Valid()
      modifies this`acceptedAt, this`count, acceptedAt
      ensures Valid() && (acceptedAt == old(acceptedAt) || fresh(acceptedAt))
      ensures acceptedAt[..count] == old(acceptedAt[..count]) + [t]
    {
      if count == acceptedAt.Length {
        var bigger := new Time[2 * count + 1](_ => 0);
        for i := 0 to count
          invariant bigger[..i] == acceptedAt[..i]
          modifies bigger
        {
          bigger[i] := acceptedAt[i];
        }
        acceptedAt := bigger;
      }
      acceptedAt[count] := t;
      count := count + 1;
    }

    /** Keeps the times after the cutoff, in the same array. */
    method Filter(cutoff: int)
      requires Valid()
      modifies this`count, acceptedAt
      ensures Valid() && acceptedAt[..count] == Recent(old(acceptedAt[..count]), cutoff)
    {
      ghost var times := acceptedAt[..count];
      var kept := 0;
      for i := 0 to count
        invariant kept <= i && acceptedAt[..kept] == Recent(times[..i], cutoff)
        invariant acceptedAt[i..count] == times[i..]
        modifies acceptedAt
      {
        var t := acceptedAt[i];
        assert t == acceptedAt[i..count][0] == times[i] && times[..i + 1][..i] == times[..i];
        assert acceptedAt[i + 1..count] == acceptedAt[i..count][1..] == times[i + 1..];
        if t > cutoff {
          acceptedAt[kept] := t;
          kept := kept + 1;
          assert acceptedAt[..kept] == acceptedAt[..kept - 1] + [t];
        }
      }
      assert times[..count] == times;
      count := kept;
    }

    /** A zero `now` stands for the current time. */
    method Retarget(now: Time, clock: Time) returns (change: Change)
      requires Valid() && clock > 0
      modifies this`diff, this`acceptedAt, this`count, this`lastAdjust, this`history, this`changes, acceptedAt
      ensures Valid() && (acceptedAt == old(acceptedAt) || fresh(acceptedAt))
      ensures var at := if now == 0 then clock else now;
        && (State(), change) == Retargeted(cfg, old(State()), at)
        && history == old(history) + [at]
        && changes == if change.Changed? then old(changes) + [at] else old(changes)
    {
      var interval := cfg.retargetInterval * SECOND;
      if interval <= 0 {
        interval := 30 * SECOND;
      }
      var at := now;
      if at == 0 {
        at := clock;
      }
      history := history + [at];
      Append(at);
      if lastAdjust == 0 {
        lastAdjust := at;
        return NoChange;
      }
      if at - lastAdjust < interval {
        return NoChange;
      }
      change := Readjust(at, interval);
    }

    /** The interval is over: filter, count, propose. */
    method Readjust(at: Time, interval: int) returns (change: Change)
      requires Valid() && interval == Interval(cfg)
      requires count > 0 && acceptedAt[count - 1] == at
      modifies this`diff, this`count, this`lastAdjust, this`changes, acceptedAt
      ensures Valid()
      ensures (State(), change)
        == Adopted(old(State()), at, Proposed(cfg, old(diff), |Recent(old(acceptedAt[..count]), at - interval)|))
      ensures changes == if change.Changed? then old(changes) + [at] else old(changes)
    {
      Filter(at - interval);
      if count == 0 {
        assert false;
      }
      var newDiff := ProposeDiff(cfg, interval, diff, count);
      change := Adopt(at, newDiff);
    }

    /** The end of retarget: the interval starts over, and the difficulty changes if it is worth it. */
    method Adopt(at: Time, newDiff: real) returns (change: Change)
      requires Valid()
      modifies this`diff, this`count, this`lastAdjust, this`changes
      ensures Valid() && (State(), change) == Adopted(old(State()), at, newDiff)
      ensures changes == if change.Changed? then old(changes) + [at] else old(changes)
    {
      var oldDiff := diff;
      lastAdjust := at;
      count := 0;
      if oldDiff <= 0.0 {
        oldDiff := 1.0;
      }
      RelativeChange(Distance(newDiff, oldDiff), oldDiff);
      if Distance(newDiff, oldDiff) / oldDiff < 0.1 {
        return NoChange;
      }
      diff := newDiff;
      changes := changes + [at];
      return Changed(oldDiff, newDiff);
    }

    // ----- handlers -----

    method Send(m: Message)
      modifies this`sent
      ensures sent == old(sent) + [m]
    {
      sent := sent + [m];
    }

    /** Jobs pushed by other goroutines between two lock sections. */
    method JobsArrive(ids: seq<string>)
      requires Valid()
      modifies this`currentJob, this`submitted
      ensures Valid() && State() == Pushed(old(State()), ids)
    {
      for i := 0 to |ids|
        invariant Valid() && Pushed(State(), ids[i..]) == Pushed(old(State()), ids)
      {
        assert ids[i..][0] == ids[i] && ids[i..][1..] == ids[i + 1..];
        SetJob(ids[i]);
      }
    }

    method HandleAuthorize(name: string)
      requires Valid()
      modifies this`worker, this`authorized, this`diff, this`sent
      ensures Valid() && Linked() == Step(cfg, Step(cfg, old(Linked()), Authorize(name)), Announce(None))
      ensures worker == name && authorized && diff == PickStartDiff(cfg, name)
      ensures sent == old(sent) + [Reply(true), SetDifficulty(diff)]
    {
      SetAuthorized(name);
      Send(Reply(true));
      Send(SetDifficulty(diff));
    }

    method HandleSubscribe(current: Option<string>)
      requires Valid()
      modifies this`sent, this`currentJob, this`submitted
      ensures Valid()
      ensures var announced := Step(cfg, Step(cfg, old(Linked()), Subscribe), Announce(current));
        Linked() == if current.Some? then Step(cfg, announced, OwnJob) else announced
      ensures sent == old(sent) + [Reply(true), SetDifficulty(diff)] + if current.Some? then [Notify(current.value)] else []
      ensures current.Some? ==> currentJob == current.value && submitted == {}
    {
      Send(Reply(true));
      Send(SetDifficulty(diff));
      if current.Some? {
        SetJob(current.value);
        Send(Notify(current.value));
      }
    }

    /** One submission, given what the validator and the store answer, the time of acceptance, and the jobs that arrive. */
    method HandleSubmit(s: Submission, verdict: Work.Verdict, now: Time, storeOk: bool, jobs: Arrivals)
      requires Valid() && now > 0 && NoLater(history, now)
      modifies this, acceptedAt
      ensures Valid() && (acceptedAt == old(acceptedAt) || fresh(acceptedAt))
      ensures Linked() == SubmitOutcome(cfg, old(Linked()), s, verdict, now, storeOk, jobs)
    {
      var auth, name, job, given := authorized, worker, currentJob, diff;
      JobsArrive(jobs.beforeMark);
      if !auth {
        Send(Reply(false));
        return;
      }
      if job == "" || s.jobId != job {
        Send(Reply(false));
        return;
      }
      var key := Key(s);
      var isNew := MarkSubmitted(key);
      if !isNew {
        Send(Reply(false));
        return;
      }
      JobsArrive(jobs.beforeStore);
      FinishSubmit(s, name, given, verdict, now, storeOk, jobs.beforeRetarget);
    }

    method FinishSubmit(s: Submission, name: string, given: real, verdict: Work.Verdict, now: Time, storeOk: bool, jobs: seq<string>)
      requires Valid() && now > 0 && NoLater(history, now)
      modifies this, acceptedAt
      ensures Valid() && (acceptedAt == old(acceptedAt) || fresh(acceptedAt))
      ensures Linked() == JudgeOutcome(cfg, old(Linked()).(pc := Validating(s, name, given)), verdict, now, storeOk, jobs)
    {
      if verdict.Rejected? {
        Send(Reply(false));
        return;
      }
      stored := stored + [Record(name, given, now, verdict.isBlock, Key(s), verdict.hash)];
      if !storeOk {
        Send(Reply(false));
        return;
      }
      Send(Reply(true));
      JobsArrive(jobs);
      RetargetAndTell(now);
    }

    method RetargetAndTell(now: Time)
      requires Valid() && now > 0
      modifies this, acceptedAt
      ensures Valid() && (acceptedAt == old(acceptedAt) || fresh(acceptedAt))
      ensures Linked() == RetargetOutcome(cfg, old(Linked()).(pc := Retargeting(now)))
    {
      var change := Retarget(now, now);
      assert Linked() == AfterRetarget(cfg, old(Linked()).(pc := Retargeting(now))).(pc := Ready);
      if change.Changed? {
        Send(SetDifficulty(change.to));
      }
    }
  }
}
