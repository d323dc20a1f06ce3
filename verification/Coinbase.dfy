/** The coinbase transaction, split around the extranonces (BuildCoinbaseTx), and what any reader of it recovers. */
module Coinbase {
  import opened Bytes
  import opened Encoding
  import opened Fees
  import opened Base58
  import opened Transactions

  /** What the job maker asks for. `spk` is the decoded payout_spk_hex, empty if there is none. */
  datatype Request = Request(
    height: int, value: int, address: string, tag: seq<byte>, spk: seq<byte>, feePercent: real, feeAddress: string)

  /** int64 arguments, and slices no longer than memory allows. */
  predicate RequestOk(r: Request) {
    && IsInt64(r.height) && IsInt64(r.value)
    && |r.tag| < 0x7fff_ffff_ffff_0000 && |r.spk| < 0x8000_0000_0000_0000
  }

  function MainScript(r: Request): seq<byte> {
    if r.spk == [] then PayoutScript(r.address) else r.spk
  }

  function Outputs(r: Request): seq<TxOut> {
    var fee := CoinbaseFee(r.value, r.feePercent);
    [TxOut(r.value - fee, MainScript(r))]
    + if fee > 0 then [TxOut(fee, PayoutScript(r.feeAddress))] else []
  }

  function ScriptSig(r: Request, en1: seq<byte>, en2: seq<byte>): seq<byte> {
    HeightPush(r.height) + r.tag + en1 + en2
  }

  /** The transaction the two halves stand for. */
  function CoinbaseTx(r: Request, en1: seq<byte>, en2: seq<byte>): Tx {
    Tx(1, [TxIn(seq(32, _ => 0), MAX32, ScriptSig(r, en1, en2), MAX32)], Outputs(r), 0)
  }

  lemma {:induction false} MinLEShort(v: nat)
    requires v < 0x8000_0000_0000_0000
    ensures |MinLE(v)| <= 8
  {
    Pow256Values();
    MinLELength(v, 8);
  }

  lemma PushShort(h: int)
    requires IsInt64(h)
    ensures 1 <= |HeightPush(h)| <= 10
  {
    if h > 16 {
      MinLEShort(h);
    }
  }

  lemma CoinbaseTxOk(r: Request, en1: seq<byte>, en2: seq<byte>)
    requires RequestOk(r) && |en1| == 4 && |en2| == 4
    ensures TxOk(CoinbaseTx(r, en1, en2))
  {
    PushShort(r.height);
  }

  /** appendLE32 and appendLE64 add one fixed-width field. */
  method AppendField(dst: seq<byte>, ghost ps: seq<seq<byte>>, field: seq<byte>) returns (out: seq<byte>, ghost qs: seq<seq<byte>>)
    requires dst == Cat(ps)
    ensures qs == ps + [field] && out == Cat(qs) == dst + field
  {
    out, qs := dst + field, ps + [field];
    CatAppend(ps, [field]);
    CatOne(field);
  }

  ghost function HeadPieces(r: Request): seq<seq<byte>> {
    [LE(1, 4), [1], seq(32, _ => 0), LE(MAX32, 4), EncodeVarInt(|HeightPush(r.height) + r.tag| + 8)]
  }

  ghost function SecondPieces(r: Request): seq<seq<byte>> {
    [LE(MAX32, 4)] + ([EncodeVarInt(|Outputs(r)|)] + (Many(Outputs(r), OutPieces) + [LE(0, 4)]))
  }

  /** BuildCoinbaseTx: whatever four-byte extranonces a miner inserts, the bytes are exactly that transaction, and any
      reader recovers from them what was requested. */
  method BuildCoinbaseTx(r: Request) returns (cb1: seq<byte>, cb2: seq<byte>)
    requires RequestOk(r)
    ensures forall en1: seq<byte>, en2: seq<byte> :: |en1| == 4 && |en2| == 4 ==>
      TxOk(CoinbaseTx(r, en1, en2)) && cb1 + en1 + en2 + cb2 == SerializeTx(CoinbaseTx(r, en1, en2))
    ensures forall en1: seq<byte>, en2: seq<byte> :: |en1| == 4 && |en2| == 4 ==>
      ReadsAsRequested(r, en1, en2, cb1 + en1 + en2 + cb2)
  {
    cb1 := BuildFirstHalf(r);
    cb2 := BuildSecondHalf(r);
    forall en1: seq<byte>, en2: seq<byte> | |en1| == 4 && |en2| == 4
      ensures TxOk(CoinbaseTx(r, en1, en2)) && cb1 + en1 + en2 + cb2 == SerializeTx(CoinbaseTx(r, en1, en2))
    {
      CoinbaseTxOk(r, en1, en2);
      HalvesMakeTheTransaction(r, en1, en2);
    }
    HalvesReadAsRequested(r, cb1, cb2);
  }

  lemma HalvesReadAsRequested(r: Request, cb1: seq<byte>, cb2: seq<byte>)
    requires RequestOk(r)
    requires forall en1: seq<byte>, en2: seq<byte> :: |en1| == 4 && |en2| == 4 ==>
      TxOk(CoinbaseTx(r, en1, en2)) && cb1 + en1 + en2 + cb2 == SerializeTx(CoinbaseTx(r, en1, en2))
    ensures forall en1: seq<byte>, en2: seq<byte> :: |en1| == 4 && |en2| == 4 ==>
      ReadsAsRequested(r, en1, en2, cb1 + en1 + en2 + cb2)
  {
    forall en1: seq<byte>, en2: seq<byte> | |en1| == 4 && |en2| == 4 ensures ReadsAsRequested(r, en1, en2, cb1 + en1 + en2 + cb2) {
      CoinbaseParsesBack(r, cb1, cb2, en1, en2);
    }
  }

  method BuildFirstHalf(r: Request) returns (cb1: seq<byte>)
    requires RequestOk(r)
    ensures cb1 == Cat(HeadPieces(r) + [HeightPush(r.height) + r.tag])
  {
    var heightBytes := EncodeHeight(r.height);
    var scriptSigPrefix := heightBytes + r.tag;
    ghost var ps: seq<seq<byte>> := [];
    cb1, ps := AppendField([], ps, LE(1, 4));
    cb1, ps := AppendField(cb1, ps, [1]);
    cb1, ps := AppendField(cb1, ps, seq(32, _ => 0));
    cb1, ps := AppendField(cb1, ps, LE(MAX32, 4));
    cb1, ps := AppendField(cb1, ps, EncodeVarInt(|scriptSigPrefix| + 8));
    cb1, ps := AppendField(cb1, ps, scriptSigPrefix);
    assert ps == HeadPieces(r) + [scriptSigPrefix];
  }

  /** One output: value, script length, script. */
  method AppendOutput(dst: seq<byte>, ghost ps: seq<seq<byte>>, value: int, script: seq<byte>)
    returns (out: seq<byte>, ghost qs: seq<seq<byte>>)
    requires dst == Cat(ps)
    ensures qs == ps + OutPieces(TxOut(value, script)) && out == Cat(qs)
  {
    out, qs := AppendField(dst, ps, LE(Unsigned(value), 8));
    out, qs := AppendField(out, qs, EncodeVarInt(|script|));
    out, qs := AppendField(out, qs, script);
  }

  method BuildSecondHalf(r: Request) returns (cb2: seq<byte>)
    requires RequestOk(r)
    ensures cb2 == Cat(SecondPieces(r))
  {
    ghost var ps: seq<seq<byte>> := [];
    cb2, ps := AppendField([], ps, LE(MAX32, 4));
    var devFeeValue := CoinbaseFee(r.value, r.feePercent);
    var outputCount: byte := 1;
    if devFeeValue > 0 {
      outputCount := 2;
    }
    cb2, ps := AppendField(cb2, ps, [outputCount]);
    cb2, ps := AppendOutputs(cb2, ps, r, devFeeValue);
    cb2, ps := AppendField(cb2, ps, LE(0, 4));
    SecondHalfOrder(LE(MAX32, 4), [outputCount], Many(Outputs(r), OutPieces), LE(0, 4));
  }

  /** The main output, and the developer's if the fee is positive. */
  method AppendOutputs(dst: seq<byte>, ghost ps: seq<seq<byte>>, r: Request, devFeeValue: int)
    returns (out: seq<byte>, ghost qs: seq<seq<byte>>)
    requires RequestOk(r) && dst == Cat(ps) && devFeeValue == CoinbaseFee(r.value, r.feePercent)
    ensures qs == ps + Many(Outputs(r), OutPieces) && out == Cat(qs)
  {
    var mainValue := r.value - devFeeValue;
    var mainPkScript := r.spk;
    if |mainPkScript| == 0 {
      mainPkScript := BuildPayoutScript(r.address);
    }
    out, qs := AppendOutput(dst, ps, mainValue, mainPkScript);
    if devFeeValue > 0 {
      var devPkScript := BuildPayoutScript(r.feeAddress);
      out, qs := AppendOutput(out, qs, devFeeValue, devPkScript);
    }
    OutputPieces(r, ps);
  }

  lemma OutputPieces(r: Request, ps: seq<seq<byte>>)
    ensures var fee := CoinbaseFee(r.value, r.feePercent);
      var main := ps + OutPieces(TxOut(r.value - fee, MainScript(r)));
      ps + Many(Outputs(r), OutPieces) == if fee > 0 then main + OutPieces(TxOut(fee, PayoutScript(r.feeAddress))) else main
  {
    var fee := CoinbaseFee(r.value, r.feePercent);
    PiecesOfOneOrTwo(TxOut(r.value - fee, MainScript(r)), TxOut(fee, PayoutScript(r.feeAddress)), ps);
    assert Outputs(r) == [TxOut(r.value - fee, MainScript(r))] + if fee > 0 then [TxOut(fee, PayoutScript(r.feeAddress))] else [];
  }

  lemma PiecesOfOneOrTwo(main: TxOut, dev: TxOut, ps: seq<seq<byte>>)
    ensures ps + Many([main] + [], OutPieces) == ps + OutPieces(main)
    ensures ps + Many([main] + [dev], OutPieces) == ps + OutPieces(main) + OutPieces(dev)
  {
    assert [main] + [] == [main] && [main] + [dev] == [main, dev];
    ManyOne(main, OutPieces);
    ManyTwo(main, dev, OutPieces);
  }

  lemma SecondHalfOrder(a: seq<byte>, b: seq<byte>, outs: seq<seq<byte>>, l: seq<byte>)
    ensures [] + [a] + [b] + outs + [l] == [a] + ([b] + (outs + [l]))
  {
  }

  lemma HalvesMakeTheTransaction(r: Request, en1: seq<byte>, en2: seq<byte>)
    requires RequestOk(r) && |en1| == 4 && |en2| == 4 && TxOk(CoinbaseTx(r, en1, en2))
    ensures Cat(HeadPieces(r) + [HeightPush(r.height) + r.tag]) + en1 + en2 + Cat(SecondPieces(r)) == SerializeTx(CoinbaseTx(r, en1, en2))
  {
    var head, prefix, script := HeadPieces(r), HeightPush(r.height) + r.tag, ScriptSig(r, en1, en2);
    CatAppend(head, [prefix]);
    CatOne(prefix);
    CatAppend(head, [script] + SecondPieces(r));
    CatCons(script, SecondPieces(r));
    Regroup(Cat(head), prefix, en1, en2, Cat(SecondPieces(r)));
    PiecesAgree(r, en1, en2);
  }

  lemma Regroup(a: seq<byte>, b: seq<byte>, c: seq<byte>, d: seq<byte>, e: seq<byte>)
    ensures a + b + c + d + e == a + (b + c + d + e)
  {
  }

  lemma PiecesAgree(r: Request, en1: seq<byte>, en2: seq<byte>)
    requires RequestOk(r) && |en1| == 4 && |en2| == 4
    ensures TxPieces(CoinbaseTx(r, en1, en2)) == HeadPieces(r) + ([ScriptSig(r, en1, en2)] + SecondPieces(r))
  {
    var tx, script := CoinbaseTx(r, en1, en2), ScriptSig(r, en1, en2);
    OneInput(tx.ins[0]);
    var second := [EncodeVarInt(|Outputs(r)|)] + (Many(Outputs(r), OutPieces) + [LE(0, 4)]);
    FirstHalfOrder(LE(1, 4), [1], tx.ins[0].prevHash, LE(MAX32, 4), EncodeVarInt(|script|), script, LE(MAX32, 4), second);
    HeadPiecesAre(r, en1, en2);
  }

  lemma HeadPiecesAre(r: Request, en1: seq<byte>, en2: seq<byte>)
    requires |en1| == 4 && |en2| == 4
    ensures HeadPieces(r) == [LE(1, 4), [1], seq(32, _ => 0), LE(MAX32, 4), EncodeVarInt(|ScriptSig(r, en1, en2)|)]
  {
    assert |ScriptSig(r, en1, en2)| == |HeightPush(r.height) + r.tag| + 8;
  }

  lemma OneInput(i: TxIn)
    ensures Many([i], InPieces) == InPieces(i) && EncodeVarInt(|[i]|) == [1]
  {
    ManyOne(i, InPieces);
  }

  lemma FirstHalfOrder(v: seq<byte>, n: seq<byte>, h: seq<byte>, i: seq<byte>, l: seq<byte>, s: seq<byte>, q: seq<byte>,
                       rest: seq<seq<byte>>)
    ensures [v] + ([n] + ([h, i, l, s, q] + rest)) == [v, n, h, i, l] + ([s] + ([q] + rest))
  {
  }

  // ----- what a reader recovers -----

  function TotalOut(outs: seq<TxOut>): int {
    if outs == [] then 0 else outs[0].value + TotalOut(outs[1..])
  }

  /** The outputs add up to the block's value, and none is negative if the value is not. */
  lemma OutputsAddUp(r: Request)
    ensures TotalOut(Outputs(r)) == r.value
    ensures r.value >= 0 ==> forall k :: 0 <= k < |Outputs(r)| ==> Outputs(r)[k].value >= 0
  {
    var outs := Outputs(r);
    if |outs| == 1 {
      TotalOfOne(outs[0]);
    } else {
      assert outs[1..] == [outs[1]];
      TotalOfOne(outs[1]);
    }
  }

  lemma TotalOfOne(o: TxOut)
    ensures TotalOut([o]) == o.value
  {
    assert [o][1..] == [];
  }

  /** The script pays the key hash that the address encodes, whatever its version and checksum; an address that encodes
      less than that, or nothing, gives the placeholder script. */
  ghost predicate PaysAddress(script: seq<byte>, address: string) {
    && (forall version: byte, hash160: seq<byte>, checksum: seq<byte> ::
          |hash160| == 20 && |checksum| == 4 && address == Base58Encode([version] + hash160 + checksum) ==>
            script == [0x76, 0xa9, 0x14] + hash160 + [0x88, 0xac])
    && (!Valid(address) || |FullDecode(address)| < 25 ==> script == [0x6a, 0x04, 0x70, 0x6f, 0x6f, 0x6c])
  }

  /** The first output pays the value without the fee to the configured script, or else to the pool's address; a second
      one, which pays the fee to the developer's address, is there exactly if the fee is positive. */
  ghost predicate PaysAsConfigured(r: Request, outs: seq<TxOut>) {
    var fee := CoinbaseFee(r.value, r.feePercent);
    && |outs| == (if fee > 0 then 2 else 1)
    && outs[0].value == r.value - fee
    && (if r.spk == [] then PaysAddress(outs[0].script, r.address) else outs[0].script == r.spk)
    && (fee > 0 ==> outs[1].value == fee && PaysAddress(outs[1].script, r.feeAddress))
  }

  lemma ScriptPaysAddress(address: string)
    ensures PaysAddress(PayoutScript(address), address)
  {
    forall version: byte, hash160: seq<byte>, checksum: seq<byte>
      | |hash160| == 20 && |checksum| == 4 && address == Base58Encode([version] + hash160 + checksum)
      ensures PayoutScript(address) == [0x76, 0xa9, 0x14] + hash160 + [0x88, 0xac]
    {
      AddressPaysItsKeyHash(version, hash160, checksum);
    }
  }

  lemma OutputsPayAsConfigured(r: Request)
    ensures PaysAsConfigured(r, Outputs(r))
  {
    ScriptPaysAddress(r.address);
    ScriptPaysAddress(r.feeAddress);
  }

  /** Parsing the assembled bytes uses all of them and recovers one null-prevout input whose script is
      height, tag and extranonces, outputs that pay as configured and add up to the block's value, and - from block 1
      on - the height. */
  lemma CoinbaseParsesBack(r: Request, cb1: seq<byte>, cb2: seq<byte>, en1: seq<byte>, en2: seq<byte>)
    requires RequestOk(r) && |en1| == 4 && |en2| == 4
    requires TxOk(CoinbaseTx(r, en1, en2)) && cb1 + en1 + en2 + cb2 == SerializeTx(CoinbaseTx(r, en1, en2))
    ensures ReadsAsRequested(r, en1, en2, cb1 + en1 + en2 + cb2)
  {
    ParseInvertsSerialize(CoinbaseTx(r, en1, en2));
    CoinbaseIsAsRequested(r, en1, en2);
  }

  lemma CoinbaseIsAsRequested(r: Request, en1: seq<byte>, en2: seq<byte>)
    requires RequestOk(r)
    ensures Recovered(r, en1, en2, CoinbaseTx(r, en1, en2))
  {
    OutputsAddUp(r);
    OutputsPayAsConfigured(r);
    if r.height >= 1 {
      ScriptHeight(r, en1, en2);
    }
  }

  /** Version 1, one input that spends nothing, sequence and lock time that leave it final. */
  ghost predicate IsCoinbase(tx: Tx) {
    && tx.version == 1 && tx.lockTime == 0 && |tx.ins| == 1
    && tx.ins[0].prevHash == seq(32, _ => 0) && tx.ins[0].prevIndex == 0xffff_ffff && tx.ins[0].sequence == 0xffff_ffff
  }

  ghost predicate ReadsAsRequested(r: Request, en1: seq<byte>, en2: seq<byte>, bytes: seq<byte>) {
    ParseTx(bytes).Some? && Recovered(r, en1, en2, ParseTx(bytes).value)
  }

  ghost predicate Recovered(r: Request, en1: seq<byte>, en2: seq<byte>, tx: Tx) {
    && IsCoinbase(tx)
    && (exists push :: tx.ins[0].script == push + r.tag + en1 + en2 && |push| >= 1)
    && (r.height >= 1 ==> ReadHeight(tx.ins[0].script) == Read(r.height, r.tag + en1 + en2))
    && PaysAsConfigured(r, tx.outs)
    && TotalOut(tx.outs) == r.value
    && (r.value >= 0 ==> forall k :: 0 <= k < |tx.outs| ==> tx.outs[k].value >= 0)
  }

  lemma FourParts(a: seq<byte>, b: seq<byte>, c: seq<byte>, d: seq<byte>)
    ensures a + b + c + d == a + (b + c + d)
  {
  }

  lemma ScriptHeight(r: Request, en1: seq<byte>, en2: seq<byte>)
    requires 1 <= r.height < 0x8000_0000_0000_0000
    ensures ReadHeight(ScriptSig(r, en1, en2)) == Read(r.height, r.tag + en1 + en2)
  {
    HeightReadsBack(r.height, r.tag + en1 + en2);
    FourParts(HeightPush(r.height), r.tag, en1, en2);
  }
}
