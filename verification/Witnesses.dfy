/** The collision hypotheses can be met: a toy hash that tells apart all submissions on a job, and one that tells apart
    everything hashed for a block with a transaction. */
module Witnesses {
  import opened Bytes
  import opened Hex
  import opened Merkle
  import opened Work

  ghost function Fill(b: byte, n: nat): (s: seq<byte>)
    ensures |s| == n && forall i :: 0 <= i < n ==> s[i] == b
  {
    seq(n, _ => b)
  }

  ghost function EmptyJob(): Job {
    Job([], [], [], 0, Fill(0, 32), 0)
  }

  /** Keeps an eight-byte coinbase, and of a header the bytes in which two submissions on the job can differ. */
  ghost function Keep(x: seq<byte>): Digest {
    if |x| == 8 then x + Fill(0, 24)
    else if |x| == 80 then x[36..44] + x[68..72] + x[76..80] + Fill(1, 16)
    else Fill(2, 32)
  }

  /** Any two submissions on that job meet NoCollision. */
  lemma SubmissionsCanBeToldApart(q: Work, q': Work)
    requires WorkOk(q) && WorkOk(q')
    ensures NoCollision(Keep, EmptyJob(), q, EmptyJob(), q')
  {
    var j := EmptyJob();
    var inputs := HashInputs(Keep, j, q) + HashInputs(Keep, j, q');
    forall x, y | x in inputs && y in inputs && Keep(x) == Keep(y) ensures x == y {
      var o: Work :| (o == q || o == q') && (x == CoinbaseBytes(j, o) || x == HeaderOf(Keep, j, o));
      var p: Work :| (p == q || p == q') && (y == CoinbaseBytes(j, p) || y == HeaderOf(Keep, j, p));
      assert Keep(x)[31] == if |x| == 8 then 0 else 1;
      assert Keep(y)[31] == if |y| == 8 then 0 else 1;
      if |x| == 8 {
        assert Keep(x)[..8] == x && Keep(y)[..8] == y;
      } else {
        HeadersToldApart(o, p);
      }
    }
  }

  lemma HeadersToldApart(q: Work, q': Work)
    requires WorkOk(q) && WorkOk(q')
    requires Keep(HeaderOf(Keep, EmptyJob(), q)) == Keep(HeaderOf(Keep, EmptyJob(), q'))
    ensures HeaderOf(Keep, EmptyJob(), q) == HeaderOf(Keep, EmptyJob(), q')
  {
    var j := EmptyJob();
    var h, h' := HeaderOf(Keep, j, q), HeaderOf(Keep, j, q');
    var c, c' := CoinbaseBytes(j, q), CoinbaseBytes(j, q');
    assert h[36..44] == c && h'[36..44] == c';
    var k, k' := Keep(h), Keep(h');
    assert k[..8] == c && k'[..8] == c';
    assert k[8..12] == h[68..72] == LE(q.ntime, 4) && k'[8..12] == h'[68..72] == LE(q'.ntime, 4);
    assert k[12..16] == h[76..80] == LE(q.nonce, 4) && k'[12..16] == h'[76..80] == LE(q'.nonce, 4);
  }

  ghost function TxId(): Digest {
    Fill(9, 32)
  }

  /** 1 for a coinbase, 2 for the transaction doubled, 3 for the coinbase with the transaction, 4 for all else. */
  ghost function Number(x: seq<byte>): Digest {
    if |x| != 64 then Fill(1, 32)
    else if x == TxId() + TxId() then Fill(2, 32)
    else if x == Fill(1, 32) + TxId() then Fill(3, 32)
    else Fill(4, 32)
  }

  ghost function Digit(d: byte): Digest {
    Fill(d, 32)
  }

  lemma NumberOfPair(a: Digest, b: Digest)
    ensures Pair(Number)(a, b)
      == if b == TxId() && a == TxId() then Digit(2) else if b == TxId() && a == Digit(1) then Digit(3) else Digit(4)
  {
    var x: seq<byte> := a;
    var ab := x + b;
    assert ab[..32] == a && ab[32..] == b;
    var t: seq<byte>, u: seq<byte> := TxId(), Digit(1);
    var tt, ut := t + TxId(), u + TxId();
    assert tt[..32] == TxId() && tt[32..] == TxId() && ut[..32] == Digit(1) && ut[32..] == TxId();
    assert ab == tt <==> a == TxId() && b == TxId();
    assert ab == ut <==> a == Digit(1) && b == TxId();
    assert Pair(Number)(a, b) == Number(ab);
  }

  lemma DigitsDiffer(a: byte, b: byte)
    ensures Digit(a) == Digit(b) <==> a == b
  {
    assert Digit(a)[0] == a && Digit(b)[0] == b;
  }

  ghost function OneTransaction(): seq<Digest> {
    [TxId()]
  }

  ghost function ThePairs(): set<(Digest, Digest)> {
    {(TxId(), TxId()), (Digit(1), TxId()), (Digit(3), Digit(2))}
  }

  lemma ShippedPart()
    ensures ShippedBranch(Pair(Number), OneTransaction()) == [TxId(), Digit(2)]
    ensures ShippedPairs(Pair(Number), OneTransaction()) == {(TxId(), TxId())}
  {
    NumberOfPair(TxId(), TxId());
    var next: seq<Digest> := PairUp(Pair(Number), OneTransaction());
    assert next == [Digit(2)];
  }

  lemma FoldPart()
    ensures FoldPairs(Pair(Number), Digit(1), [TxId(), Digit(2)]) == {(Digit(1), TxId()), (Digit(3), Digit(2))}
  {
    DigitsDiffer(9, 1);
    NumberOfPair(Digit(1), TxId());
    var b: seq<Digest> := [TxId(), Digit(2)];
    assert b[1..] == [Digit(2)] && b[1..][1..] == [];
    assert FoldPairs(Pair(Number), Digit(3), b[1..]) == {(Digit(3), Digit(2))};
  }

  lemma TreePart()
    ensures TreePairs(Pair(Number), [Digit(1)] + OneTransaction()) == {(Digit(1), TxId())}
  {
    var s: seq<Digest> := [Digit(1)] + OneTransaction();
    assert s == [Digit(1), TxId()] && s[2..] == [];
    assert LevelPairs(s) == {(Digit(1), TxId())} && TreePairs(Pair(Number), PairUp(Pair(Number), s)) == {};
  }

  lemma PairsToldApart()
    ensures CollisionFree(Pair(Number), ThePairs()) && AreLeaves(Pair(Number), ThePairs(), OneTransaction())
  {
    NumberOfPair(TxId(), TxId());
    NumberOfPair(Digit(1), TxId());
    NumberOfPair(Digit(3), Digit(2));
    DigitsDiffer(9, 1); DigitsDiffer(9, 2); DigitsDiffer(9, 3); DigitsDiffer(9, 4);
    DigitsDiffer(2, 3); DigitsDiffer(2, 4); DigitsDiffer(3, 4);
  }

  /** A block with one transaction meets what ShippedBranchMissesRoot and its consequences assume. */
  lemma BlockCanBeToldApart()
    ensures var pairs := RootPairs(Pair(Number), Number([]), OneTransaction(), OneTransaction());
      CollisionFree(Pair(Number), pairs) && AreLeaves(Pair(Number), pairs, OneTransaction())
      && Distinct(OneTransaction()) && Rev(TxId()) == TxId()
  {
    ShippedPart();
    FoldPart();
    TreePart();
    assert RootPairs(Pair(Number), Number([]), OneTransaction(), OneTransaction()) == ThePairs();
    PairsToldApart();
  }
}
