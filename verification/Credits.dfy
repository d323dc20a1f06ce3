/** One credit per header: the share table's index on (pool_id, block_hash) joined with what a header hash identifies. */
module Credits {
  import opened Options
  import opened Bytes
  import opened Hex
  import opened Work
  import opened Database
  import opened Ledger

  lemma StepKeepsRow(w: World, a: Action, id: int)
    requires Enabled(w, a) && id in w.t.shares
    ensures id in Step(w, a).t.shares && Step(w, a).t.shares[id] == w.t.shares[id]
  {
  }

  /** A recorded hash blocks its pool for the rest of the run. */
  lemma {:induction false} RecordedHashIsNotInsertedAgain(w: World, run: seq<Action>, id: int, k: nat)
    requires ValidRun(w, run) && id in w.t.shares && w.t.shares[id].hash.Some?
    requires k < |run| && run[k].InsertShare? && run[k].row.pool == w.t.shares[id].pool
    ensures run[k].row.hash != w.t.shares[id].hash
    decreases k
  {
    if k > 0 {
      StepKeepsRow(w, run[0], id);
      RecordedHashIsNotInsertedAgain(Step(w, run[0]), run[1..], id, k - 1);
    }
  }

  /** In a run of any engines and any share inserts, two shares of one pool never have the same hash. */
  lemma {:induction false} HashesOfARunDiffer(w: World, run: seq<Action>, i: nat, k: nat)
    requires ValidRun(w, run) && i < k < |run|
    requires run[i].InsertShare? && run[k].InsertShare? && run[i].row.pool == run[k].row.pool && run[i].row.hash.Some?
    ensures run[i].row.hash != run[k].row.hash
    decreases i
  {
    var w', rest := Step(w, run[0]), run[1..];
    if i == 0 {
      assert w'.t.shares[run[0].id] == run[0].row;
      RecordedHashIsNotInsertedAgain(w', rest, run[0].id, k - 1);
    } else {
      HashesOfARunDiffer(w', rest, i - 1, k - 1);
    }
  }

  /** No header is credited twice in a pool, whatever jobs and submissions it came from; and one job never credits
      the same work twice. */
  lemma NoHeaderIsCreditedTwice(w: World, run: seq<Action>, i: nat, k: nat, dsha: Hasher, j: Job, q: Work, j': Job, q': Work)
    requires ValidRun(w, run) && i < k < |run|
    requires run[i].InsertShare? && run[k].InsertShare? && run[i].row.pool == run[k].row.pool
    requires run[i].row.hash == Some(DisplayHash(WorkHash(dsha, j, q)))
    requires run[k].row.hash == Some(DisplayHash(WorkHash(dsha, j', q')))
    ensures HeaderOf(dsha, j, q) != HeaderOf(dsha, j', q') && (j == j' ==> q != q')
  {
    HashesOfARunDiffer(w, run, i, k);
  }

  /** The job and the work that a share was accepted for. */
  datatype Origin = Origin(job: Job, work: Work)

  predicate Hashed(shares: map<int, ShareRow>, pool: string, i: int) {
    i in shares && shares[i].pool == pool && shares[i].hash.Some?
  }

  /** Every recorded hash of the pool comes from a submission, and none of the byte strings hashed for it collide with
      those of the new one. */
  ghost predicate AllFrom(shares: map<int, ShareRow>, pool: string, dsha: Hasher, from: map<int, Origin>, j: Job, q: Work) {
    forall i :: Hashed(shares, pool, i) ==>
      && i in from && WorkOk(from[i].work) && shares[i].hash == Some(DisplayHash(WorkHash(dsha, from[i].job, from[i].work)))
      && NoCollision(dsha, from[i].job, from[i].work, j, q)
  }

  /** The new submission repeats a recorded one: the same work on its own job, or the same header on another. */
  ghost predicate Repeats(dsha: Hasher, o: Origin, j: Job, q: Work) {
    if o.job == j then o.work == q else HeaderOf(dsha, o.job, o.work) == HeaderOf(dsha, j, q)
  }

  /** The index never turns away new work: it rejects a share with a new key exactly if it repeats a recorded one. */
  lemma IndexRejectsExactlyOldWork(shares: map<int, ShareRow>, dsha: Hasher, from: map<int, Origin>, id: int, row: ShareRow, j: Job, q: Work)
    requires WorkOk(q) && AllFrom(shares, row.pool, dsha, from, j, q)
    requires row.hash == Some(DisplayHash(WorkHash(dsha, j, q))) && id >= 1 && row.diff > 0.0
    requires forall i :: i in shares ==> i < id && (shares[i].pool == row.pool ==> shares[i].key != row.key)
    ensures CanInsertShare(shares, id, row) <==> forall i :: Hashed(shares, row.pool, i) ==> !Repeats(dsha, from[i], j, q)
  {
    forall i | Hashed(shares, row.pool, i) ensures shares[i].hash == row.hash <==> Repeats(dsha, from[i], j, q) {
      HashIffRepeats(dsha, from[i], j, q);
    }
    if CanInsertShare(shares, id, row) {
      assert forall i :: Hashed(shares, row.pool, i) ==> shares[i].hash != row.hash;
    }
  }

  lemma HashIffRepeats(dsha: Hasher, o: Origin, j: Job, q: Work)
    requires WorkOk(o.work) && WorkOk(q) && NoCollision(dsha, o.job, o.work, j, q)
    ensures DisplayHash(WorkHash(dsha, o.job, o.work)) == DisplayHash(WorkHash(dsha, j, q)) <==> Repeats(dsha, o, j, q)
  {
    SameHashIffSameHeader(dsha, o.job, o.work, j, q);
    if o.job == j {
      SameHashIffSameWork(dsha, j, o.work, q);
    }
  }

  // ----- connections -----

  /** The work of an accepted submission. */
  lemma AcceptedWork(dsha: Hasher, j: Job, en1: string, en2: string, ntime: string, nonce: string) returns (q: Work)
    requires VerdictOn(dsha, Some(j), en1, en2, ntime, nonce).Accepted?
    ensures ParseWork(en1, en2, ntime, nonce) == Some(q) && WorkOk(q)
    ensures VerdictOn(dsha, Some(j), en1, en2, ntime, nonce).hash == DisplayHash(WorkHash(dsha, j, q))
  {
    q := ParseWork(en1, en2, ntime, nonce).value;
  }

  lemma SameWorkIffSameTextUpToCase(en1: string, en2: string, ntime: string, nonce: string,
                                    en2': string, ntime': string, nonce': string)
    requires ParseWork(en1, en2, ntime, nonce).Some? && ParseWork(en1, en2', ntime', nonce').Some?
    ensures ParseWork(en1, en2, ntime, nonce) == ParseWork(en1, en2', ntime', nonce')
      <==> Lower(en2) == Lower(en2') && Lower(ntime) == Lower(ntime') && Lower(nonce) == Lower(nonce')
  {
    SameBytesIffSameLower(en2, en2');
    SameNumberIffSameLower(ntime, ntime');
    SameNumberIffSameLower(nonce, nonce');
  }

  /** On one connection, two accepted submissions have the same hash exactly if they differ in letter case only. */
  lemma SameHashIffSameTextUpToCase(dsha: Hasher, j: Job, en1: string, en2: string, ntime: string, nonce: string,
                                    en2': string, ntime': string, nonce': string)
    requires VerdictOn(dsha, Some(j), en1, en2, ntime, nonce).Accepted?
    requires VerdictOn(dsha, Some(j), en1, en2', ntime', nonce').Accepted?
    requires NoCollision(dsha, j, ParseWork(en1, en2, ntime, nonce).value, j, ParseWork(en1, en2', ntime', nonce').value)
    ensures VerdictOn(dsha, Some(j), en1, en2, ntime, nonce).hash == VerdictOn(dsha, Some(j), en1, en2', ntime', nonce').hash
      <==> Lower(en2) == Lower(en2') && Lower(ntime) == Lower(ntime') && Lower(nonce) == Lower(nonce')
  {
    var q := AcceptedWork(dsha, j, en1, en2, ntime, nonce);
    var q' := AcceptedWork(dsha, j, en1, en2', ntime', nonce');
    SameHashIffSameWork(dsha, j, q, q');
    SameWorkIffSameTextUpToCase(en1, en2, ntime, nonce, en2', ntime', nonce');
  }

  lemma SameNumberIffSameLower(s: string, t: string)
    requires ParseHex32(s).Some? && ParseHex32(t).Some?
    ensures ParseHex32(s) == ParseHex32(t) <==> Lower(s) == Lower(t)
  {
    if ParseHex32(s) == ParseHex32(t) {
      BEValInjective(HexDecode(s).value, HexDecode(t).value);
    }
    SameBytesIffSameLower(s, t);
  }

  /** Submissions on two connections fewer than 2^32 apart never have the same hash, whatever the miners send. */
  lemma ConnectionsNeverCollide(dsha: Hasher, j: Job, k: nat, l: nat, en2: string, ntime: string, nonce: string,
                                en2': string, ntime': string, nonce': string)
    requires k < l < k + 0x1_0000_0000
    requires VerdictOn(dsha, Some(j), Extranonce1Hex(k), en2, ntime, nonce).Accepted?
    requires VerdictOn(dsha, Some(j), Extranonce1Hex(l), en2', ntime', nonce').Accepted?
    requires NoCollision(dsha, j, ParseWork(Extranonce1Hex(k), en2, ntime, nonce).value,
                         j, ParseWork(Extranonce1Hex(l), en2', ntime', nonce').value)
    ensures VerdictOn(dsha, Some(j), Extranonce1Hex(k), en2, ntime, nonce).hash
      != VerdictOn(dsha, Some(j), Extranonce1Hex(l), en2', ntime', nonce').hash
  {
    var q := AcceptedWork(dsha, j, Extranonce1Hex(k), en2, ntime, nonce);
    var q' := AcceptedWork(dsha, j, Extranonce1Hex(l), en2', ntime', nonce');
    SameHashIffSameWork(dsha, j, q, q');
    ExtranoncesDecodeApart(k, l);
  }

  lemma ExtranoncesDecodeApart(k: nat, l: nat)
    requires k < l < k + 0x1_0000_0000
    ensures HexDecode(Extranonce1Hex(k)) != HexDecode(Extranonce1Hex(l))
  {
    ExtranonceDistinct(k, l);
    var d := l - k;
    assert 0 < d < 0x1_0000_0000 && d % 0x1_0000_0000 == d;
    HexRoundTrip(Rev(LE(Extranonce1(k), 4)));
    HexRoundTrip(Rev(LE(Extranonce1(l), 4)));
  }
}
