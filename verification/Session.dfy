/** One Stratum connection as a state machine. The reading goroutine works through a request in steps, one per lock
    section or message; the broadcasting goroutine may push a job between any two of them. */
module Session {
  import opened Options
  import opened Vardiff
  import Work

  datatype Submission = Submission(jobId: string, en2: string, ntime: string, nonce: string)

  function Key(s: Submission): string {
    s.jobId + "|" + s.en2 + "|" + s.ntime + "|" + s.nonce
  }

  datatype Record = Record(worker: string, diff: real, time: Time, isBlock: bool, key: string, hash: string)

  datatype Message = SetDifficulty(diff: real) | Notify(jobId: string) | Reply(ok: bool)

  /** Where the reading goroutine is; the fields are its local variables. */
  datatype Pc =
    | Ready
    | Announcing(subscribing: bool)
    | SendingJob(jobId: string)
    | Checking(s: Submission, worker: string, authorized: bool, job: string, given: real)
    | Validating(s: Submission, worker: string, given: real)
    | Storing(s: Submission, worker: string, given: real, hash: string, isBlock: bool)
    | Retargeting(now: Time)
    | Telling(diff: real)

  /** `sent` is what was written to the socket and `stored` what was handed to the share store. `history` and `changes`
      are kept for the proofs: the times of all accepted shares, and of all changes by a retarget. */
  datatype Link = Link(
    c: ConnState, pc: Pc, sent: seq<Message>, stored: seq<Record>, history: seq<Time>, changes: seq<Time>)

  function Fresh(cfg: DiffConfig): Link {
    Link(ConnState("", false, cfg.start, "", {}, [], 0), Ready, [], [], [], [])
  }

  // ----- lock sections -----

  function Authorized(cfg: DiffConfig, c: ConnState, worker: string): ConnState {
    c.(worker := worker, authorized := true, diff := PickStartDiff(cfg, worker))
  }

  function WithJob(c: ConnState, jobId: string): ConnState {
    c.(currentJob := jobId, submitted := {})
  }

  function Marked(c: ConnState, key: string): ConnState {
    c.(submitted := c.submitted + {key})
  }

  // ----- steps -----

  datatype Action =
    | PushJob(jobId: string)
    | PushNotify(jobId: string)
    | Authorize(worker: string)
    | Subscribe
    | Announce(current: Option<string>)
    | OwnJob
    | Submit(s: Submission)
    | Check
    | Judge(verdict: Work.Verdict)
    | Store(now: Time, stored: bool)
    | Retarget
    | Tell

  /** The clock is not zero and does not run backwards; nothing else is asked of the environment. */
  predicate Enabled(l: Link, a: Action) {
    match a
    case PushJob(_) => true
    case PushNotify(_) => true
    case Authorize(_) => l.pc.Ready?
    case Subscribe => l.pc.Ready?
    case Announce(_) => l.pc.Announcing?
    case OwnJob => l.pc.SendingJob?
    case Submit(_) => l.pc.Ready?
    case Check => l.pc.Checking?
    case Judge(_) => l.pc.Validating?
    case Store(now, _) => l.pc.Storing? && now > 0 && NoLater(l.history, now)
    case Retarget => l.pc.Retargeting?
    case Tell => l.pc.Telling?
  }

  function Answered(l: Link, ok: bool): Link {
    l.(pc := Ready, sent := l.sent + [Reply(ok)])
  }

  /** Unauthorized, stale and duplicate submissions are refused; the duplicate test is markSubmitted's lock section. */
  function AfterCheck(l: Link): Link
    requires l.pc.Checking?
  {
    if !l.pc.authorized || l.pc.job == "" || l.pc.s.jobId != l.pc.job || Key(l.pc.s) in l.c.submitted
    then Answered(l, false)
    else l.(c := Marked(l.c, Key(l.pc.s)), pc := Validating(l.pc.s, l.pc.worker, l.pc.given))
  }

  function AfterStore(l: Link, now: Time, stored: bool): Link
    requires l.pc.Storing?
  {
    var r := Record(l.pc.worker, l.pc.given, now, l.pc.isBlock, Key(l.pc.s), l.pc.hash);
    var l' := l.(stored := l.stored + [r]);
    if stored then Answered(l', true).(pc := Retargeting(now)) else Answered(l', false)
  }

  function AfterRetarget(cfg: DiffConfig, l: Link): Link
    requires l.pc.Retargeting?
  {
    var (c', change) := Retargeted(cfg, l.c, l.pc.now);
    l.(c := c',
       history := l.history + [l.pc.now],
       changes := if change.Changed? then l.changes + [l.pc.now] else l.changes,
       pc := if change.Changed? then Telling(change.to) else Ready)
  }

  function Step(cfg: DiffConfig, l: Link, a: Action): Link
    requires Enabled(l, a)
  {
    match a
    case PushJob(id) => l.(c := WithJob(l.c, id))
    case PushNotify(id) => l.(sent := l.sent + [Notify(id)])
    case Authorize(worker) => Answered(l, true).(c := Authorized(cfg, l.c, worker), pc := Announcing(false))
    case Subscribe => Answered(l, true).(pc := Announcing(true))
    case Announce(current) =>
      l.(sent := l.sent + [SetDifficulty(l.c.diff)],
         pc := if l.pc.subscribing && current.Some? then SendingJob(current.value) else Ready)
    case OwnJob => l.(c := WithJob(l.c, l.pc.jobId), sent := l.sent + [Notify(l.pc.jobId)], pc := Ready)
    case Submit(s) => l.(pc := Checking(s, l.c.worker, l.c.authorized, l.c.currentJob, l.c.diff))
    case Check => AfterCheck(l)
    case Judge(v) =>
      if v.Accepted? then l.(pc := Storing(l.pc.s, l.pc.worker, l.pc.given, v.hash, v.isBlock)) else Answered(l, false)
    case Store(now, stored) => AfterStore(l, now, stored)
    case Retarget => AfterRetarget(cfg, l)
    case Tell => l.(sent := l.sent + [SetDifficulty(l.pc.diff)], pc := Ready)
  }

  predicate ValidRun(cfg: DiffConfig, l: Link, run: seq<Action>)
    decreases run
  {
    run == [] || (Enabled(l, run[0]) && ValidRun(cfg, Step(cfg, l, run[0]), run[1..]))
  }

  function After(cfg: DiffConfig, l: Link, run: seq<Action>): Link
    requires ValidRun(cfg, l, run)
    decreases run
  {
    if run == [] then l else After(cfg, Step(cfg, l, run[0]), run[1..])
  }

  lemma {:induction false} RunConcat(cfg: DiffConfig, l: Link, first: seq<Action>, second: seq<Action>)
    requires ValidRun(cfg, l, first) && ValidRun(cfg, After(cfg, l, first), second)
    ensures ValidRun(cfg, l, first + second) && After(cfg, l, first + second) == After(cfg, After(cfg, l, first), second)
    decreases first
  {
    if first == [] {
      assert first + second == second;
    } else {
      assert (first + second)[1..] == first[1..] + second;
      RunConcat(cfg, Step(cfg, l, first[0]), first[1..], second);
    }
  }

  ghost predicate Reachable(cfg: DiffConfig, l: Link) {
    exists run :: ValidRun(cfg, Fresh(cfg), run) && After(cfg, Fresh(cfg), run) == l
  }

  // ----- the invariant -----

  /** The difficulty in the last mining.set_difficulty. */
  function LastTold(sent: seq<Message>): Option<real> {
    if sent == [] then None
    else
      var m := sent[|sent| - 1];
      if m.SetDifficulty? then Some(m.diff) else LastTold(sent[..|sent| - 1])
  }

  lemma LastToldAppend(sent: seq<Message>, m: Message)
    ensures LastTold(sent + [m]) == if m.SetDifficulty? then Some(m.diff) else LastTold(sent)
  {
    assert (sent + [m])[..|sent|] == sent;
  }

  /** An authorized connection has an allowed difficulty, and has told the miner about it except just before it does. */
  predicate DiffOk(cfg: DiffConfig, c: ConnState, pc: Pc, sent: seq<Message>) {
    c.authorized ==> Fixed(cfg, c.diff) && (!pc.Announcing? && !pc.Telling? ==> LastTold(sent) == Some(c.diff))
  }

  predicate PcOk(c: ConnState, pc: Pc, history: seq<Time>) {
    match pc
    case Checking(_, worker, authorized, _, given) =>
      worker == c.worker && authorized == c.authorized && given == c.diff
    case Validating(_, worker, given) => c.authorized && worker == c.worker && given == c.diff
    case Storing(_, worker, given, _, _) => c.authorized && worker == c.worker && given == c.diff
    case Retargeting(now) => c.authorized && now > 0 && NoLater(history, now)
    case Telling(diff) => c.authorized && diff == c.diff
    case _ => true
  }

  predicate ChangesOk(cfg: DiffConfig, changes: seq<Time>, lastAdjust: Time) {
    && NoLater(changes, lastAdjust)
    && forall i, j :: 0 <= i < j < |changes| ==> changes[j] - changes[i] >= Interval(cfg)
  }

  ghost predicate Inv(cfg: DiffConfig, l: Link) {
    && DiffOk(cfg, l.c, l.pc, l.sent)
    && PcOk(l.c, l.pc, l.history)
    && MeterOk(l.c.window, l.c.lastAdjust, l.history)
    && ChangesOk(cfg, l.changes, l.c.lastAdjust)
  }

  lemma FreshOk(cfg: DiffConfig)
    ensures Inv(cfg, Fresh(cfg))
  {
    var l := Fresh(cfg);
    assert CutAt(l.c.window, l.c.lastAdjust, l.history, 0);
  }

  /** A retarget keeps the difficulty allowed, changes it only when an interval is over, and does nothing else. */
  lemma RetargetFacts(cfg: DiffConfig, c: ConnState, now: Time)
    requires Fixed(cfg, c.diff)
    ensures var (c', change) := Retargeted(cfg, c, now);
      && c' == c.(diff := c'.diff, window := c'.window, lastAdjust := c'.lastAdjust)
      && Fixed(cfg, c'.diff)
      && (if change.Changed? then Due(cfg, c, now) && change == Changed(c.diff, c'.diff) else c'.diff == c.diff)
      && (if Due(cfg, c, now) || c.lastAdjust == 0 then c'.lastAdjust == now else c'.lastAdjust == c.lastAdjust)
  {
    ProposalIsBounded(cfg, c.diff, |Recent(c.window + [now], now - Interval(cfg))|);
  }

  lemma ChangesStaySpaced(cfg: DiffConfig, changes: seq<Time>, lastAdjust: Time, now: Time, changed: bool)
    requires ChangesOk(cfg, changes, lastAdjust)
    requires if changed then now - lastAdjust >= Interval(cfg) else now >= lastAdjust
    ensures ChangesOk(cfg, if changed then changes + [now] else changes, now)
  {
  }

  lemma RetargetKeepsInv(cfg: DiffConfig, l: Link)
    requires Inv(cfg, l) && l.pc.Retargeting?
    ensures Inv(cfg, AfterRetarget(cfg, l))
  {
    var now := l.pc.now;
    RetargetFacts(cfg, l.c, now);
    RetargetKeepsMeter(cfg, l.c, l.history, now);
    var change := Retargeted(cfg, l.c, now).1;
    if Due(cfg, l.c, now) || l.c.lastAdjust == 0 {
      ChangesStaySpaced(cfg, l.changes, l.c.lastAdjust, now, change.Changed?);
    }
  }

  lemma StepKeepsDiffOk(cfg: DiffConfig, l: Link, a: Action)
    requires DiffOk(cfg, l.c, l.pc, l.sent) && PcOk(l.c, l.pc, l.history) && Enabled(l, a) && !a.Retarget?
    ensures var l' := Step(cfg, l, a); DiffOk(cfg, l'.c, l'.pc, l'.sent)
  {
    var l' := Step(cfg, l, a);
    if l'.sent != l.sent {
      var m := l'.sent[|l.sent|];
      assert l'.sent == l.sent + [m];
      LastToldAppend(l.sent, m);
    }
    if a.Authorize? {
      StartIsAllowed(cfg, a.worker);
    }
  }

  lemma StepKeepsPcOk(cfg: DiffConfig, l: Link, a: Action)
    requires PcOk(l.c, l.pc, l.history) && Enabled(l, a) && !a.Retarget?
    ensures var l' := Step(cfg, l, a); PcOk(l'.c, l'.pc, l'.history)
  {
  }

  /** Only a retarget touches the window, the last adjustment and the proof history. */
  lemma StepKeepsMeter(cfg: DiffConfig, l: Link, a: Action)
    requires Enabled(l, a) && !a.Retarget?
    ensures var l' := Step(cfg, l, a);
      l'.c.window == l.c.window && l'.c.lastAdjust == l.c.lastAdjust && l'.history == l.history && l'.changes == l.changes
  {
  }

  lemma StepKeepsInv(cfg: DiffConfig, l: Link, a: Action)
    requires Inv(cfg, l) && Enabled(l, a)
    ensures Inv(cfg, Step(cfg, l, a))
  {
    if a.Retarget? {
      RetargetKeepsInv(cfg, l);
    } else {
      StepKeepsDiffOk(cfg, l, a);
      StepKeepsPcOk(cfg, l, a);
      StepKeepsMeter(cfg, l, a);
    }
  }

  lemma StartIsAllowed(cfg: DiffConfig, worker: string)
    ensures Fixed(cfg, PickStartDiff(cfg, worker))
  {
    forall v ensures Fixed(cfg, ClampDiff(cfg, v)) {
      ClampIsNearest(cfg, v);
      ClampIsNearest(cfg, ClampDiff(cfg, v));
    }
  }

  lemma {:induction false} RunKeepsInv(cfg: DiffConfig, l: Link, run: seq<Action>)
    requires Inv(cfg, l) && ValidRun(cfg, l, run)
    ensures Inv(cfg, After(cfg, l, run))
    decreases run
  {
    if run != [] {
      StepKeepsInv(cfg, l, run[0]);
      RunKeepsInv(cfg, Step(cfg, l, run[0]), run[1..]);
    }
  }

  lemma ReachableOk(cfg: DiffConfig, l: Link)
    requires Reachable(cfg, l)
    ensures Inv(cfg, l)
  {
    var run :| ValidRun(cfg, Fresh(cfg), run) && After(cfg, Fresh(cfg), run) == l;
    FreshOk(cfg);
    RunKeepsInv(cfg, Fresh(cfg), run);
  }

  // ----- theorems -----

  /** Whatever requests and job pushes came before, a record handed to the store carries the worker of the last
      authorization and the difficulty the miner was last told, which is positive and within the bounds. */
  lemma StoredDifficultyIsTheToldOne(cfg: DiffConfig, l: Link, now: Time, stored: bool)
    requires Reachable(cfg, l) && Enabled(l, Store(now, stored))
    ensures var l' := Step(cfg, l, Store(now, stored));
      && |l'.stored| == |l.stored| + 1 && l'.stored[..|l.stored|] == l.stored
      && var r := l'.stored[|l.stored|];
        && r.worker == l.c.worker && LastTold(l.sent) == Some(r.diff)
        && r.diff > 0.0 && InBounds(cfg, r.diff)
  {
    ReachableOk(cfg, l);
    ClampIsNearest(cfg, l.c.diff);
  }

  /** A retarget goes by the number of shares accepted on the connection in the last interval, over its full history.
      When the first share is accepted the interval starts; whenever it is over it starts anew, and the difficulty
      follows the rate, by a factor within [1/4, 4] and inside the bounds, or stays if the change would be less than a
      tenth. A change is told to the miner. Nothing else changes. */
  lemma RetargetFollowsTheTrueRate(cfg: DiffConfig, l: Link)
    requires Reachable(cfg, l) && l.pc.Retargeting?
    ensures var l' := Step(cfg, l, Retarget);
      var now, last := l.pc.now, l.c.lastAdjust;
      var over := last != 0 && now - last >= Interval(cfg);
      var shares := |Within(l'.history, now, Interval(cfg))|;
      var to := Proposed(cfg, l.c.diff, shares);
      && l'.history == l.history + [now]
      && l.c.diff / 4.0 <= to <= 4.0 * l.c.diff
      && (l'.c.diff > l.c.diff ==> Target(cfg) * SECOND * shares > Interval(cfg))
      && (l'.c.diff < l.c.diff ==> Target(cfg) * SECOND * shares < Interval(cfg))
      && l'.c.diff == (if over && 10.0 * Distance(to, l.c.diff) >= l.c.diff then to else l.c.diff)
      && l'.c.lastAdjust == (if over || last == 0 then now else last)
      && l'.c == l.c.(diff := l'.c.diff, window := l'.c.window, lastAdjust := l'.c.lastAdjust)
      && l'.pc == (if l'.c.diff != l.c.diff then Telling(l'.c.diff) else Ready)
      && l'.sent == l.sent && l'.stored == l.stored
  {
    ReachableOk(cfg, l);
    var shares := |Within(l.history + [l.pc.now], l.pc.now, Interval(cfg))|;
    ProposalIsBounded(cfg, l.c.diff, shares);
    FactorFollowsTheRate(cfg, shares);
    if Due(cfg, l.c, l.pc.now) {
      WindowCountsFullHistory(cfg, l.c, l.history, l.pc.now);
    }
  }

  /** Two changes by a retarget are at least one interval apart. */
  lemma ChangesAreAnIntervalApart(cfg: DiffConfig, l: Link, i: nat, j: nat)
    requires Reachable(cfg, l) && i < j < |l.changes|
    ensures l.changes[j] - l.changes[i] >= Interval(cfg)
  {
    ReachableOk(cfg, l);
  }

  // ----- duplicates -----

  lemma SplitAtBar(a: string, x: string, b: string, y: string)
    requires '|' !in a && '|' !in b && a + "|" + x == b + "|" + y
    ensures a == b && x == y
  {
    var s, t := a + "|" + x, b + "|" + y;
    assert s[|a|] == '|' && t[|b|] == '|';
    assert forall k :: 0 <= k < |a| ==> s[k] == a[k];
    assert forall k :: 0 <= k < |b| ==> t[k] == b[k];
    assert s[..|a|] == a && t[..|b|] == b;
    assert s[|a| + 1..] == x && t[|b| + 1..] == y;
  }

  predicate NoBar(s: Submission) {
    '|' !in s.jobId && '|' !in s.en2 && '|' !in s.ntime && '|' !in s.nonce
  }

  /** The key identifies the four fields, as long as none holds the separator. */
  lemma KeyIsInjective(s: Submission, t: Submission)
    requires NoBar(s) && NoBar(t)
    ensures Key(s) == Key(t) <==> s == t
  {
    if Key(s) == Key(t) {
      assert Key(s) == s.jobId + "|" + (s.en2 + "|" + (s.ntime + "|" + s.nonce));
      assert Key(t) == t.jobId + "|" + (t.en2 + "|" + (t.ntime + "|" + t.nonce));
      SplitAtBar(s.jobId, s.en2 + "|" + (s.ntime + "|" + s.nonce), t.jobId, t.en2 + "|" + (t.ntime + "|" + t.nonce));
      SplitAtBar(s.en2, s.ntime + "|" + s.nonce, t.en2, t.ntime + "|" + t.nonce);
      SplitAtBar(s.ntime, s.nonce, t.ntime, t.nonce);
    }
  }

  predicate SetsJob(a: Action) {
    a.PushJob? || a.OwnJob?
  }

  /** No step of the run looks the key up. */
  predicate NeverChecked(cfg: DiffConfig, l: Link, run: seq<Action>, key: string)
    requires ValidRun(cfg, l, run)
    decreases run
  {
    run == [] || (!(run[0].Check? && Key(l.pc.s) == key) && NeverChecked(cfg, Step(cfg, l, run[0]), run[1..], key))
  }

  lemma {:induction false} MarkSurvivesIff(cfg: DiffConfig, l: Link, run: seq<Action>, key: string)
    requires ValidRun(cfg, l, run) && NeverChecked(cfg, l, run, key)
    ensures key in After(cfg, l, run).c.submitted <==> key in l.c.submitted && forall i :: 0 <= i < |run| ==> !SetsJob(run[i])
    decreases run
  {
    if run != [] {
      var l', rest := Step(cfg, l, run[0]), run[1..];
      MarkSurvivesIff(cfg, l', rest, key);
      assert forall i :: 1 <= i < |run| ==> run[i] == rest[i - 1];
      assert key in l'.c.submitted <==> key in l.c.submitted && !SetsJob(run[0]);
      if forall i :: 0 <= i < |rest| ==> !SetsJob(rest[i]) {
        assert forall i :: 1 <= i < |run| ==> !SetsJob(run[i]);
      }
    }
  }

  predicate Passes(l: Link) {
    l.pc.Checking? && AfterCheck(l).pc.Validating?
  }

  /** A submission that passed, sent again for the connection's current job, passes a second time exactly if a job was
      set in between, be it the same one: setting a job forgets the submitted keys. */
  lemma RepeatPassesIffJobWasSet(cfg: DiffConfig, l: Link, run: seq<Action>)
    requires Passes(l) && ValidRun(cfg, Step(cfg, l, Check), run)
    requires NeverChecked(cfg, Step(cfg, l, Check), run, Key(l.pc.s))
    requires var l' := After(cfg, Step(cfg, l, Check), run);
      l'.pc.Checking? && l'.pc.s == l.pc.s && l'.pc.authorized && l'.pc.job == l.pc.s.jobId
    ensures Passes(After(cfg, Step(cfg, l, Check), run)) <==> exists i :: 0 <= i < |run| && SetsJob(run[i])
  {
    MarkSurvivesIff(cfg, Step(cfg, l, Check), run, Key(l.pc.s));
  }

  lemma Advance(cfg: DiffConfig, l: Link, a: Action) returns (l': Link)
    requires Reachable(cfg, l) && Enabled(l, a)
    ensures Reachable(cfg, l') && l' == Step(cfg, l, a)
  {
    l' := Step(cfg, l, a);
    var run :| ValidRun(cfg, Fresh(cfg), run) && After(cfg, Fresh(cfg), run) == l;
    RunConcat(cfg, Fresh(cfg), run, [a]);
    assert After(cfg, l, [a]) == l';
  }

  /** The miner submits for its current job, and the validator accepts. */
  lemma SubmitFirst(cfg: DiffConfig, l: Link, s: Submission, now: Time, stored: bool) returns (l': Link)
    requires Reachable(cfg, l) && l.pc.Ready? && l.c.authorized && l.c.currentJob == s.jobId != "" && l.c.submitted == {}
    requires now > 0 && NoLater(l.history, now)
    ensures Reachable(cfg, l') && l'.pc == (if stored then Retargeting(now) else Ready)
    ensures l'.c == Marked(l.c, Key(s)) && l'.history == l.history
    ensures exists r: Record :: r.key == Key(s) && l'.stored == l.stored + [r]
  {
    l' := Advance(cfg, l, Submit(s));
    l' := Advance(cfg, l', Check);
    l' := Advance(cfg, l', Judge(Work.Accepted("h", false)));
    ghost var given := l';
    l' := Advance(cfg, l', Store(now, stored));
    var r := Record(given.pc.worker, given.pc.given, now, false, Key(s), "h");
    assert l'.stored == l.stored + [r];
  }

  lemma SubscribeTo(cfg: DiffConfig, l: Link, jobId: string) returns (l': Link)
    requires Reachable(cfg, l) && l.pc.Ready?
    ensures Reachable(cfg, l') && l'.pc.Ready? && l'.c == WithJob(l.c, jobId)
    ensures l'.history == l.history && l'.stored == l.stored
  {
    l' := Advance(cfg, l, Subscribe);
    l' := Advance(cfg, l', Announce(Some(jobId)));
    l' := Advance(cfg, l', OwnJob);
  }

  /** So the store can be handed one key twice: a miner that subscribes again gets its job, and an empty memory, again.
      (Only the share table's unique keys then keep the second record out.) */
  lemma OneKeyCanReachTheStoreTwice(cfg: DiffConfig)
    ensures exists l :: Reachable(cfg, l) && |l.stored| == 2 && l.stored[0].key == l.stored[1].key
  {
    var s := Submission("1", "00000000", "00000000", "00000000");
    var l := Fresh(cfg);
    assert ValidRun(cfg, l, []) && After(cfg, l, []) == l;
    l := Advance(cfg, l, Authorize("w"));
    l := Advance(cfg, l, Announce(None));
    l := SubscribeTo(cfg, l, "1");
    l := SubmitFirst(cfg, l, s, 1, true);
    l := Advance(cfg, l, Retarget);
    l := SubscribeTo(cfg, l, "1");
    l := SubmitFirst(cfg, l, s, 2, false);
  }
}
