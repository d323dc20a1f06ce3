/** From a submission to a header hash (share validation), and why each header is credited once. */
module Work {
  import opened Options
  import opened Bytes
  import opened Hex
  import opened Merkle
  import opened Encoding

  /** What the validator reads of the current job. */
  datatype Job = Job(cb1: seq<byte>, cb2: seq<byte>, branch: seq<Digest>, version: nat, prevHash: Digest, bits: nat)

  /** The four fields a miner varies, decoded. */
  datatype Work = Work(en1: seq<byte>, en2: seq<byte>, ntime: nat, nonce: nat)

  predicate WorkOk(q: Work) {
    |q.en1| == 4 && |q.en2| == 4 && q.ntime < 0x1_0000_0000 && q.nonce < 0x1_0000_0000
  }

  type Hasher = seq<byte> -> Digest

  function Pair(dsha: Hasher): (Digest, Digest) -> Digest {
    (a: Digest, b: Digest) => dsha(a + b)
  }

  // ----- the header -----

  function HeaderBytes(version: nat, prev: Digest, root: Digest, time: nat, bits: nat, nonce: nat): (h: seq<byte>)
    ensures |h| == 80
  {
    LE(version, 4) + prev + root + LE(time, 4) + LE(bits, 4) + LE(nonce, 4)
  }

  /** BuildBlockHeader: fields are written into an 80-byte buffer in place. */
  method BuildBlockHeader(version: nat, prev: Digest, root: Digest, time: nat, bits: nat, nonce: nat)
    returns (hdr: array<byte>)
    ensures fresh(hdr) && hdr.Length == 80 && hdr[..] == HeaderBytes(version, prev, root, time, bits, nonce)
  {
    hdr := new byte[80](_ => 0);
    Put(hdr, 0, LE(version, 4));
    Put(hdr, 4, prev);
    Put(hdr, 36, root);
    Put(hdr, 68, LE(time, 4));
    Put(hdr, 72, LE(bits, 4));
    Put(hdr, 76, LE(nonce, 4));
    assert hdr[..] == hdr[..80];
  }

  /** One field, written after those before it. */
  method Put(dst: array<byte>, at: nat, src: seq<byte>)
    requires at + |src| <= dst.Length
    modifies dst
    ensures dst[..at + |src|] == old(dst[..at]) + src
  {
    for i := 0 to |src|
      invariant dst[..at + i] == old(dst[..at]) + src[..i]
    {
      dst[at + i] := src[i];
      assert dst[..at + i + 1] == dst[..at + i] + [src[i]];
    }
  }

  /** The fields can be read off the header: it is injective in root, time and nonce. */
  lemma HeaderInjective(version: nat, prev: Digest, bits: nat, root: Digest, time: nat, nonce: nat,
                        root': Digest, time': nat, nonce': nat)
    requires time < 0x1_0000_0000 && nonce < 0x1_0000_0000 && time' < 0x1_0000_0000 && nonce' < 0x1_0000_0000
    requires HeaderBytes(version, prev, root, time, bits, nonce) == HeaderBytes(version, prev, root', time', bits, nonce')
    ensures root == root' && time == time' && nonce == nonce'
  {
    var h, h' := HeaderBytes(version, prev, root, time, bits, nonce), HeaderBytes(version, prev, root', time', bits, nonce');
    assert h[36..68] == root && h'[36..68] == root';
    assert h[68..72] == LE(time, 4) && h'[68..72] == LE(time', 4);
    assert h[76..80] == LE(nonce, 4) && h'[76..80] == LE(nonce', 4);
    assert Pow256(4) == 0x1_0000_0000 by { Pow256Values(); }
    LERoundTrip(time, 4);
    LERoundTrip(time', 4);
    LERoundTrip(nonce, 4);
    LERoundTrip(nonce', 4);
  }

  function CoinbaseBytes(j: Job, q: Work): seq<byte> {
    j.cb1 + q.en1 + q.en2 + j.cb2
  }

  function HeaderOf(dsha: Hasher, j: Job, q: Work): seq<byte> {
    HeaderBytes(j.version, j.prevHash, Fold(Pair(dsha), dsha(CoinbaseBytes(j, q)), j.branch), q.ntime, j.bits, q.nonce)
  }

  function WorkHash(dsha: Hasher, j: Job, q: Work): Digest {
    dsha(HeaderOf(dsha, j, q))
  }

  // ----- what is hashed for a submission -----

  /** No two of these finitely many byte strings have the same hash. */
  ghost predicate CollisionFreeOn(dsha: Hasher, inputs: set<seq<byte>>) {
    forall x, y :: x in inputs && y in inputs && dsha(x) == dsha(y) ==> x == y
  }

  ghost function Joined(pairs: set<(Digest, Digest)>): set<seq<byte>> {
    set p | p in pairs :: p.0 + p.1
  }

  /** The coinbase and the nodes up to the Merkle root. */
  ghost function RootInputs(dsha: Hasher, j: Job, q: Work): set<seq<byte>> {
    {CoinbaseBytes(j, q)} + Joined(FoldPairs(Pair(dsha), dsha(CoinbaseBytes(j, q)), j.branch))
  }

  /** All that is hashed to judge a submission. */
  ghost function HashInputs(dsha: Hasher, j: Job, q: Work): set<seq<byte>> {
    RootInputs(dsha, j, q) + {HeaderOf(dsha, j, q)}
  }

  /** Nothing hashed for one submission collides with anything hashed for itself or the other. */
  ghost predicate NoCollision(dsha: Hasher, j: Job, q: Work, j': Job, q': Work) {
    CollisionFreeOn(dsha, HashInputs(dsha, j, q) + HashInputs(dsha, j', q'))
  }

  lemma PairsCollisionFree(dsha: Hasher, inputs: set<seq<byte>>, pairs: set<(Digest, Digest)>)
    requires CollisionFreeOn(dsha, inputs) && Joined(pairs) <= inputs
    ensures CollisionFree(Pair(dsha), pairs)
  {
    forall p, q | p in pairs && q in pairs && Pair(dsha)(p.0, p.1) == Pair(dsha)(q.0, q.1) ensures p == q {
      assert p.0 + p.1 in Joined(pairs) && q.0 + q.1 in Joined(pairs);
      assert p.0 == (p.0 + p.1)[..32] && q.0 == (q.0 + q.1)[..32] && p.1 == (p.0 + p.1)[32..] && q.1 == (q.0 + q.1)[32..];
    }
  }

  lemma {:induction false} FoldInjective<D>(h: (D, D) -> D, x: D, y: D, branch: seq<D>)
    requires CollisionFree(h, FoldPairs(h, x, branch) + FoldPairs(h, y, branch)) && Fold(h, x, branch) == Fold(h, y, branch)
    ensures x == y
  {
    if branch != [] {
      FoldInjective(h, h(x, branch[0]), h(y, branch[0]), branch[1..]);
      assert (x, branch[0]) == (y, branch[0]);
    }
  }

  lemma CoinbaseInjective(j: Job, q: Work, q': Work)
    requires WorkOk(q) && WorkOk(q') && CoinbaseBytes(j, q) == CoinbaseBytes(j, q')
    ensures q.en1 == q'.en1 && q.en2 == q'.en2
  {
    var n := |j.cb1|;
    var c, c' := CoinbaseBytes(j, q), CoinbaseBytes(j, q');
    assert c[n..n + 4] == q.en1 && c'[n..n + 4] == q'.en1;
    assert c[n + 4..n + 8] == q.en2 && c'[n + 4..n + 8] == q'.en2;
  }

  lemma SameRootSameCoinbase(dsha: Hasher, inputs: set<seq<byte>>, c: seq<byte>, c': seq<byte>, branch: seq<Digest>)
    requires CollisionFreeOn(dsha, inputs) && c in inputs && c' in inputs
    requires Joined(FoldPairs(Pair(dsha), dsha(c), branch)) <= inputs && Joined(FoldPairs(Pair(dsha), dsha(c'), branch)) <= inputs
    requires Fold(Pair(dsha), dsha(c), branch) == Fold(Pair(dsha), dsha(c'), branch)
    ensures c == c'
  {
    var pairs := FoldPairs(Pair(dsha), dsha(c), branch) + FoldPairs(Pair(dsha), dsha(c'), branch);
    PairsCollisionFree(dsha, inputs, pairs);
    FoldInjective(Pair(dsha), dsha(c), dsha(c'), branch);
  }

  /** For one job, the header determines the work. */
  lemma SameHeaderIffSameWork(dsha: Hasher, j: Job, q: Work, q': Work)
    requires CollisionFreeOn(dsha, RootInputs(dsha, j, q) + RootInputs(dsha, j, q')) && WorkOk(q) && WorkOk(q')
    ensures HeaderOf(dsha, j, q) == HeaderOf(dsha, j, q') <==> q == q'
  {
    if HeaderOf(dsha, j, q) == HeaderOf(dsha, j, q') {
      var c, c' := CoinbaseBytes(j, q), CoinbaseBytes(j, q');
      HeaderInjective(j.version, j.prevHash, j.bits, Fold(Pair(dsha), dsha(c), j.branch), q.ntime, q.nonce,
        Fold(Pair(dsha), dsha(c'), j.branch), q'.ntime, q'.nonce);
      SameRootSameCoinbase(dsha, RootInputs(dsha, j, q) + RootInputs(dsha, j, q'), c, c', j.branch);
      CoinbaseInjective(j, q, q');
    }
  }

  /** Two submissions, on any jobs, have the same hash exactly if they have the same header. */
  lemma SameHashIffSameHeader(dsha: Hasher, j: Job, q: Work, j': Job, q': Work)
    requires NoCollision(dsha, j, q, j', q')
    ensures DisplayHash(WorkHash(dsha, j, q)) == DisplayHash(WorkHash(dsha, j', q'))
      <==> HeaderOf(dsha, j, q) == HeaderOf(dsha, j', q')
  {
    if DisplayHash(WorkHash(dsha, j, q)) == DisplayHash(WorkHash(dsha, j', q')) {
      DisplayInjective(WorkHash(dsha, j, q), WorkHash(dsha, j', q'));
    }
  }

  /** For one job, a header hash identifies the work: two submissions have the same hash exactly if all four decoded
      fields agree. Assumed is only that none of the byte strings hashed for the two collide. */
  lemma SameHashIffSameWork(dsha: Hasher, j: Job, q: Work, q': Work)
    requires NoCollision(dsha, j, q, j, q') && WorkOk(q) && WorkOk(q')
    ensures DisplayHash(WorkHash(dsha, j, q)) == DisplayHash(WorkHash(dsha, j, q')) <==> q == q'
  {
    SameHashIffSameHeader(dsha, j, q, j, q');
    SameHeaderIffSameWork(dsha, j, q, q');
  }

  // ----- extranonces -----

  /** The extranonce of the k-th connection: an atomic 32-bit counter that starts at 1. */
  function Extranonce1(k: nat): nat {
    k % 0x1_0000_0000
  }

  /** Its text `%08x`, and the bytes the validator decodes from it. */
  function Extranonce1Hex(k: nat): string {
    HexEncode(Rev(LE(Extranonce1(k), 4)))
  }

  lemma SameRemainder(k: nat, l: nat)
    requires k <= l
    ensures k % 0x1_0000_0000 == l % 0x1_0000_0000 <==> (l - k) % 0x1_0000_0000 == 0
  {
    var m := 0x1_0000_0000;
    assert l - k == (l / m - k / m) * m + (l % m - k % m);
  }

  lemma ExtranonceTextDetermines(a: nat, b: nat)
    requires a < 0x1_0000_0000 && b < 0x1_0000_0000
    ensures HexEncode(Rev(LE(a, 4))) == HexEncode(Rev(LE(b, 4))) <==> a == b
  {
    Pow256Values();
    LERoundTrip(a, 4);
    LERoundTrip(b, 4);
    if HexEncode(Rev(LE(a, 4))) == HexEncode(Rev(LE(b, 4))) {
      HexInjective(Rev(LE(a, 4)), Rev(LE(b, 4)));
      RevRev(LE(a, 4));
      RevRev(LE(b, 4));
    }
  }

  /** Two connections share an extranonce exactly if they are a multiple of 2^32 apart. */
  lemma ExtranonceDistinct(k: nat, l: nat)
    requires k <= l
    ensures Extranonce1Hex(k) == Extranonce1Hex(l) <==> (l - k) % 0x1_0000_0000 == 0
  {
    SameRemainder(k, l);
    ExtranonceTextDetermines(Extranonce1(k), Extranonce1(l));
  }

  // ----- validation -----

  function BEVal(s: seq<byte>): nat {
    if s == [] then 0 else BEVal(s[..|s| - 1]) * 256 + s[|s| - 1]
  }

  lemma {:induction false} BEValOfRev(s: seq<byte>)
    ensures BEVal(Rev(s)) == LEVal(s)
  {
    if s != [] {
      BEValOfRev(s[1..]);
      assert Rev(s)[..|s| - 1] == Rev(s[1..]);
    }
  }

  /** hashToBig: the digest read as a little-endian number. */
  method HashToBig(h: Digest) returns (n: nat)
    ensures n == LEVal(h)
  {
    var buf := new byte[32](i requires 0 <= i < 32 => h[i]);
    assert buf[..] == h && buf[..32] == buf[..];
    ReverseBytes(buf, 32);
    assert buf[..] == buf[..32];
    BEValOfRev(h);
    n := BEVal(buf[..]);
  }

  /** targetFromBits: a 23-bit mantissa scaled by powers of 256. */
  function TargetFromBits(bits: nat): nat {
    var exp, man := bits / 0x100_0000 % 256, bits % 0x80_0000;
    if exp == 0 then man / 0x100_0000
    else if exp == 1 then man / 0x1_0000
    else if exp == 2 then man / 0x100
    else if exp == 3 then man
    else man * Pow256(exp - 3)
  }

  const DIFF1: nat := 0xffff * 0x1_0000_0000_0000_0000_0000_0000_0000_0000_0000_0000_0000_0000_0000

  /** diffFromHash, on exact quotients. */
  function DiffFromHash(h: nat): real {
    if h == 0 then 0.0 else DIFF1 as real / h as real
  }

  lemma DiffAtLeastOne(h: nat)
    ensures DiffFromHash(h) < 1.0 <==> h == 0 || h > DIFF1
  {
    if h > 0 {
      var q := DIFF1 as real / h as real;
      assert q * h as real == DIFF1 as real;
    }
  }

  datatype Verdict = Rejected | Accepted(hash: string, isBlock: bool)

  function ParseHex32(s: string): Option<nat> {
    var b := HexDecode(s);
    if b.None? || |b.value| != 4 then None else Some(BEVal(b.value))
  }

  /** The decoded work of a submission, if all four fields have four bytes. */
  function ParseWork(en1: string, en2: string, ntime: string, nonce: string): (q: Option<Work>)
    ensures q.Some? ==> WorkOk(q.value)
  {
    var b1, b2, t, n := HexDecode(en1), HexDecode(en2), ParseHex32(ntime), ParseHex32(nonce);
    if b1.None? || |b1.value| != 4 || b2.None? || |b2.value| != 4 || t.None? || n.None? then None
    else
      Pow256Values();
      BEValBound(HexDecode(ntime).value);
      BEValBound(HexDecode(nonce).value);
      Some(Work(b1.value, b2.value, t.value, n.value))
  }

  lemma {:induction false} BEValBound(s: seq<byte>)
    ensures BEVal(s) < Pow256(|s|)
  {
    if s != [] {
      BEValBound(s[..|s| - 1]);
    }
  }

  lemma {:induction false} BEValInjective(s: seq<byte>, t: seq<byte>)
    requires |s| == |t| && BEVal(s) == BEVal(t)
    ensures s == t
  {
    if s != [] {
      var n := |s| - 1;
      var a: int, b: int := s[n], t[n];
      var u, v := BEVal(s[..n]), BEVal(t[..n]);
      assert u * 256 + a == v * 256 + b && 0 <= a < 256 && 0 <= b < 256;
      BEValInjective(s[..n], t[..n]);
      assert s == s[..n] + [s[n]] && t == t[..n] + [t[n]];
    }
  }

  /** A submission is accepted as a block exactly if its hash meets the job's target, and otherwise as a share exactly
      if its hash lies between 1 and the difficulty-1 target. */
  function Judge(dsha: Hasher, j: Job, q: Work): Verdict {
    var h := WorkHash(dsha, j, q);
    if LEVal(h) <= TargetFromBits(j.bits) then Accepted(DisplayHash(h), true)
    else if 1 <= LEVal(h) <= DIFF1 then Accepted(DisplayHash(h), false)
    else Rejected
  }

  function VerdictOn(dsha: Hasher, current: Option<Job>, en1: string, en2: string, ntime: string, nonce: string): Verdict {
    var q := ParseWork(en1, en2, ntime, nonce);
    if current.None? || q.None? then Rejected else Judge(dsha, current.value, q.value)
  }

  /** Validate: coinbase, root, header and hash are rebuilt from the job and the submission. */
  method Validate(dsha: Hasher, current: Option<Job>, en1: string, en2: string, ntime: string, nonce: string)
    returns (v: Verdict)
    ensures v == VerdictOn(dsha, current, en1, en2, ntime, nonce)
    ensures v.Accepted? ==> current.Some? && ParseWork(en1, en2, ntime, nonce).Some?
    ensures current.Some? && ParseWork(en1, en2, ntime, nonce).Some? ==>
      var h := WorkHash(dsha, current.value, ParseWork(en1, en2, ntime, nonce).value);
      && (v.Accepted? <==> LEVal(h) <= TargetFromBits(current.value.bits) || 1 <= LEVal(h) <= DIFF1)
      && (v.Accepted? ==> v.hash == DisplayHash(h) && (v.isBlock <==> LEVal(h) <= TargetFromBits(current.value.bits)))
  {
    if current.None? {
      return Rejected;
    }
    var j := current.value;
    var b1, b2 := HexDecode(en1), HexDecode(en2);
    if b1.None? || |b1.value| != 4 || b2.None? || |b2.value| != 4 {
      return Rejected;
    }
    var coinbaseTx: seq<byte> := j.cb1;
    coinbaseTx := coinbaseTx + b1.value;
    coinbaseTx := coinbaseTx + b2.value;
    coinbaseTx := coinbaseTx + j.cb2;
    var merkleRoot := MerkleRoot(Pair(dsha), dsha(coinbaseTx), j.branch);
    var time, n := ParseHex32(ntime), ParseHex32(nonce);
    if time.None? || n.None? {
      return Rejected;
    }
    var header := BuildBlockHeader(j.version, j.prevHash, merkleRoot, time.value, j.bits, n.value);
    var headerHash := dsha(header[..]);
    ghost var q := ParseWork(en1, en2, ntime, nonce).value;
    assert headerHash == WorkHash(dsha, j, q);
    var hashStr := HashToString(headerHash);
    var hashBig := HashToBig(headerHash);
    DiffAtLeastOne(hashBig);
    if hashBig <= TargetFromBits(j.bits) {
      return Accepted(hashStr, true);
    }
    if DiffFromHash(hashBig) < 1.0 {
      return Rejected;
    }
    return Accepted(hashStr, false);
  }

  /** A submission written in any mixture of cases is judged like its lower-case form, although its key differs. */
  lemma CaseDoesNotMakeNewWork(dsha: Hasher, current: Option<Job>, en1: string, en2: string, ntime: string, nonce: string)
    ensures VerdictOn(dsha, current, en1, en2, ntime, nonce) == VerdictOn(dsha, current, en1, Lower(en2), Lower(ntime), Lower(nonce))
  {
    HexIgnoresCase(en2);
    HexIgnoresCase(ntime);
    HexIgnoresCase(nonce);
  }
}
