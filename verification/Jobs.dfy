/** From a block template to a job (buildJob), and what the blocks mined on the job are worth. */
module Jobs {
  import opened Options
  import opened Bytes
  import opened Hex
  import opened Merkle
  import opened Encoding
  import opened Transactions
  import opened Coinbase
  import opened Work
  import opened Block

  datatype TemplateTx = TemplateTx(txid: string, data: string)

  /** A block template, with the coinbase settings of the configuration. */
  datatype Template = Template(request: Request, version: nat, prevHash: string, bits: nat, txs: seq<TemplateTx>)

  predicate TemplateOk(t: Template) {
    RequestOk(t.request) && t.version <= MAX32 && t.bits <= MAX32
  }

  predicate Readable(tx: TemplateTx) {
    HexToHash32(tx.txid).Some? && HexDecode(tx.data).Some?
  }

  predicate ReadFrom(txs: seq<TemplateTx>, hashes: seq<Digest>, raw: seq<seq<byte>>) {
    && |hashes| == |raw| == |txs|
    && forall i :: 0 <= i < |txs| ==> HexToHash32(txs[i].txid) == Some(hashes[i]) && HexDecode(txs[i].data) == Some(raw[i])
  }

  /** The halves make the requested coinbase around any extranonces. */
  ghost predicate HalvesOf(r: Request, cb1: seq<byte>, cb2: seq<byte>) {
    forall en1: seq<byte>, en2: seq<byte> :: |en1| == 4 && |en2| == 4 ==>
      TxOk(CoinbaseTx(r, en1, en2)) && cb1 + en1 + en2 + cb2 == SerializeTx(CoinbaseTx(r, en1, en2))
  }

  datatype Built = Built(job: Job, hashes: seq<Digest>, raw: seq<seq<byte>>)

  ghost predicate JobFor(dsha: Hasher, t: Template, b: Built) {
    && ReadFrom(t.txs, b.hashes, b.raw)
    && HalvesOf(t.request, b.job.cb1, b.job.cb2)
    && b.job.branch == ShippedBranch(Pair(dsha), b.hashes)
    && HexToHash32Rev(t.prevHash) == Some(b.job.prevHash)
    && b.job.version == t.version && b.job.bits == t.bits
  }

  /** The loop over the template's transactions. */
  method ReadTransactions(txs: seq<TemplateTx>) returns (ok: bool, txHashes: seq<Digest>, rawTxData: seq<seq<byte>>)
    ensures ok <==> forall i :: 0 <= i < |txs| ==> Readable(txs[i])
    ensures ok ==> ReadFrom(txs, txHashes, rawTxData)
  {
    txHashes, rawTxData := [], [];
    for i := 0 to |txs|
      invariant |txHashes| == |rawTxData| == i
      invariant forall k :: 0 <= k < i ==>
        Readable(txs[k]) && HexToHash32(txs[k].txid) == Some(txHashes[k]) && HexDecode(txs[k].data) == Some(rawTxData[k])
    {
      var h := HexToHash32(txs[i].txid);
      if h.None? {
        return false, [], [];
      }
      txHashes := txHashes + [h.value];
      var raw := HexDecode(txs[i].data);
      if raw.None? {
        return false, [], [];
      }
      rawTxData := rawTxData + [raw.value];
    }
    ok := true;
  }

  /** buildJob fails exactly if a transaction or the previous hash is not readable. */
  method BuildJob(dsha: Hasher, t: Template) returns (r: Option<Built>)
    requires TemplateOk(t)
    ensures r.Some? <==> (forall i :: 0 <= i < |t.txs| ==> Readable(t.txs[i])) && HexToHash32Rev(t.prevHash).Some?
    ensures r.Some? ==> JobFor(dsha, t, r.value)
  {
    var cb1, cb2 := BuildCoinbaseTx(t.request);
    assert HalvesOf(t.request, cb1, cb2);
    var ok, txHashes, rawTxData := ReadTransactions(t.txs);
    if !ok {
      return None;
    }
    var branch := MerkleBranch(Pair(dsha), txHashes);
    var prevHash := HexToHash32Rev(t.prevHash);
    if prevHash.None? {
      return None;
    }
    return Some(Built(Job(cb1, cb2, branch, t.version, prevHash.value, t.bits), txHashes, rawTxData));
  }

  /** What is submitted for a job that buildJob made reads back as the template's fields, the miner's time and nonce,
      the requested coinbase, and the bytes of the template's transactions. */
  lemma BuiltBlockReadsBack(dsha: Hasher, t: Template, b: Built, q: Work)
    requires TemplateOk(t) && JobFor(dsha, t, b) && WorkOk(q) && |t.txs| < 0x1_0000_0000
    ensures var text := HexEncode(HeaderOf(dsha, b.job, q)
        + (EncodeVarInt(1 + |b.raw|) + (CoinbaseBytes(b.job, q) + Cat(b.raw))));
      ParseBlock(text) == Some(ParsedBlock(
        Header(t.version, b.job.prevHash, HeaderOf(dsha, b.job, q)[36..68], q.ntime, t.bits, q.nonce),
        1 + |t.txs|, CoinbaseTx(t.request, q.en1, q.en2), Cat(b.raw)))
  {
    BuiltJobOk(dsha, t, b, q);
    HeaderRoot(dsha, b.job, q);
    BlockReadsBack(dsha, b.job, t.request, q, b.raw);
  }

  /** So the block that is submitted pays as the configuration says. */
  lemma BuiltBlockPaysAsConfigured(dsha: Hasher, t: Template, b: Built, q: Work)
    requires TemplateOk(t) && JobFor(dsha, t, b) && WorkOk(q) && |t.txs| < 0x1_0000_0000
    ensures var block := ParseBlock(HexEncode(HeaderOf(dsha, b.job, q)
        + (EncodeVarInt(1 + |b.raw|) + (CoinbaseBytes(b.job, q) + Cat(b.raw)))));
      block.Some? && Recovered(t.request, q.en1, q.en2, block.value.coinbase)
  {
    BuiltBlockReadsBack(dsha, t, b, q);
    CoinbaseIsAsRequested(t.request, q.en1, q.en2);
  }

  lemma BuiltJobOk(dsha: Hasher, t: Template, b: Built, q: Work)
    requires TemplateOk(t) && JobFor(dsha, t, b) && WorkOk(q)
    ensures JobOk(b.job, t.request, q)
  {
  }

  /** The transaction texts display these ids, as the daemon reports them. */
  ghost predicate Displays(txs: seq<TemplateTx>, ids: seq<Digest>) {
    |txs| == |ids| && forall i :: 0 <= i < |ids| ==> txs[i].txid == DisplayHash(ids[i])
  }

  /** The ids are taken over in display order. */
  lemma HashesAreReversedIds(txs: seq<TemplateTx>, hashes: seq<Digest>, raw: seq<seq<byte>>, ids: seq<Digest>)
    requires ReadFrom(txs, hashes, raw) && Displays(txs, ids)
    ensures |hashes| == |ids| && forall i :: 0 <= i < |ids| ==> hashes[i] == Rev(ids[i])
  {
    forall i | 0 <= i < |ids| ensures hashes[i] == Rev(ids[i]) {
      HexRoundTrip(Rev(ids[i]));
    }
  }

  /** The Merkle root that a valid block needs. */
  function RightRoot(dsha: Hasher, j: Job, q: Work, ids: seq<Digest>): Digest {
    TreeRoot(Pair(dsha), [dsha(CoinbaseBytes(j, q))] + ids)
  }

  lemma HeaderRoot(dsha: Hasher, j: Job, q: Work)
    ensures HeaderOf(dsha, j, q)[36..68] == Fold(Pair(dsha), dsha(CoinbaseBytes(j, q)), j.branch)
  {
  }

  /** All pairs that job construction, the validator and the correct root hash for this block. */
  ghost function BlockPairs(dsha: Hasher, b: Built, q: Work, ids: seq<Digest>): set<(Digest, Digest)> {
    RootPairs(Pair(dsha), dsha(CoinbaseBytes(b.job, q)), b.hashes, ids)
  }

  /** Among those finitely many pairs there is no collision, and no id, as it is or reversed, is one of their hashes. */
  ghost predicate HashesApart(dsha: Hasher, b: Built, q: Work, ids: seq<Digest>) {
    var pairs := BlockPairs(dsha, b, q, ids);
    CollisionFree(Pair(dsha), pairs) && AreLeaves(Pair(dsha), pairs, ids) && AreLeaves(Pair(dsha), pairs, b.hashes)
  }

  /** The whole path from template to submitted block: the header's Merkle root is the root over the coinbase and the
      template's transactions, which are distinct, if and only if the template has no transactions. */
  lemma SubmittedRootIsRightIff(dsha: Hasher, t: Template, b: Built, q: Work, ids: seq<Digest>)
    requires JobFor(dsha, t, b) && Displays(t.txs, ids) && Distinct(ids) && HashesApart(dsha, b, q, ids)
    ensures HeaderOf(dsha, b.job, q)[36..68] == RightRoot(dsha, b.job, q, ids) <==> t.txs == []
  {
    var coinbase := dsha(CoinbaseBytes(b.job, q));
    HashesAreReversedIds(t.txs, b.hashes, b.raw, ids);
    HeaderRoot(dsha, b.job, q);
    if ids == [] {
      assert [coinbase] + ids == [coinbase];
    } else {
      ReversedAreDistinct(b.hashes, ids);
      ShippedBranchMissesRoot(Pair(dsha), coinbase, b.hashes, ids);
    }
  }

  lemma ReversedAreDistinct(hashes: seq<Digest>, ids: seq<Digest>)
    requires |hashes| == |ids| && forall i :: 0 <= i < |ids| ==> hashes[i] == Rev(ids[i])
    requires Distinct(ids)
    ensures Distinct(hashes)
  {
    forall i, k | 0 <= i < k < |hashes| ensures hashes[i] != hashes[k] {
      RevRev(ids[i]);
      RevRev(ids[k]);
    }
  }

  lemma ReversedBack(hashes: seq<Digest>, ids: seq<Digest>)
    requires |hashes| == |ids| && forall i :: 0 <= i < |ids| ==> hashes[i] == Rev(ids[i])
    ensures RevEach(hashes) == ids
  {
    forall i | 0 <= i < |ids| ensures RevEach(hashes)[i] == ids[i] {
      RevRev(ids[i]);
    }
  }

  /** With both repairs - the ids reversed and the pairing started behind the first node - every block is right. */
  lemma RepairedRootIsRight(dsha: Hasher, t: Template, b: Built, q: Work, ids: seq<Digest>)
    requires JobFor(dsha, t, b) && Displays(t.txs, ids)
    ensures var repaired := b.job.(branch := IntendedBranch(Pair(dsha), RevEach(b.hashes)));
      HeaderOf(dsha, repaired, q)[36..68] == RightRoot(dsha, repaired, q, ids)
  {
    var repaired := b.job.(branch := IntendedBranch(Pair(dsha), RevEach(b.hashes)));
    var coinbase := dsha(CoinbaseBytes(repaired, q));
    HashesAreReversedIds(t.txs, b.hashes, b.raw, ids);
    ReversedBack(b.hashes, ids);
    IntendedBranchFoldsToRoot(Pair(dsha), coinbase, ids);
    HeaderRoot(dsha, repaired, q);
  }

  function RevEach(hashes: seq<Digest>): (r: seq<Digest>)
    ensures |r| == |hashes| && forall i :: 0 <= i < |r| ==> r[i] == Rev(hashes[i])
  {
    seq(|hashes|, i requires 0 <= i < |hashes| => Rev(hashes[i]))
  }
}
