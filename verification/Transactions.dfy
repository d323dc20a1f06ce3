/** The Bitcoin transaction format: a serialiser, and a parser that inverts it. */
module Transactions {
  import opened Options
  import opened Bytes
  import opened Encoding

  datatype TxIn = TxIn(prevHash: seq<byte>, prevIndex: nat, script: seq<byte>, sequence: nat)
  datatype TxOut = TxOut(value: int, script: seq<byte>)
  datatype Tx = Tx(version: nat, ins: seq<TxIn>, outs: seq<TxOut>, lockTime: nat)

  // ----- concatenation of pieces -----

  function Cat(ps: seq<seq<byte>>): seq<byte> {
    if ps == [] then [] else ps[0] + Cat(ps[1..])
  }

  lemma CatCons(p: seq<byte>, ps: seq<seq<byte>>)
    ensures Cat([p] + ps) == p + Cat(ps)
  {
    assert ([p] + ps)[1..] == ps;
  }

  lemma {:induction false} CatAppend(a: seq<seq<byte>>, b: seq<seq<byte>>)
    ensures Cat(a + b) == Cat(a) + Cat(b)
  {
    if a == [] {
      assert a + b == b;
    } else {
      assert (a + b)[1..] == a[1..] + b;
      CatAppend(a[1..], b);
      assert a[0] + (Cat(a[1..]) + Cat(b)) == a[0] + Cat(a[1..]) + Cat(b);
    }
  }

  lemma CatOne(p: seq<byte>)
    ensures Cat([p]) == p
  {
    assert [p][1..] == [];
  }

  // ----- the serialiser -----

  /** An int64 as the uint64 with the same bits. */
  function Unsigned(v: int): nat {
    v % 0x1_0000_0000_0000_0000
  }

  function Signed(u: nat): int {
    if u >= 0x8000_0000_0000_0000 then u - 0x1_0000_0000_0000_0000 else u
  }

  const MAX32 := 0xffff_ffff

  predicate InOk(i: TxIn) {
    |i.prevHash| == 32 && i.prevIndex <= MAX32 && |i.script| < 0x1_0000_0000_0000_0000 && i.sequence <= MAX32
  }

  predicate OutOk(o: TxOut) {
    -0x8000_0000_0000_0000 <= o.value < 0x8000_0000_0000_0000 && |o.script| < 0x1_0000_0000_0000_0000
  }

  predicate TxOk(tx: Tx) {
    && tx.version <= MAX32 && tx.lockTime <= MAX32
    && |tx.ins| < 0x1_0000_0000_0000_0000 && |tx.outs| < 0x1_0000_0000_0000_0000
    && (forall k :: 0 <= k < |tx.ins| ==> InOk(tx.ins[k]))
    && (forall k :: 0 <= k < |tx.outs| ==> OutOk(tx.outs[k]))
  }

  function InPieces(i: TxIn): seq<seq<byte>> {
    [i.prevHash, LE(i.prevIndex, 4), EncodeVarInt(|i.script|), i.script, LE(i.sequence, 4)]
  }

  function OutPieces(o: TxOut): seq<seq<byte>> {
    [LE(Unsigned(o.value), 8), EncodeVarInt(|o.script|), o.script]
  }

  function Many<T>(items: seq<T>, pieces: T -> seq<seq<byte>>): seq<seq<byte>> {
    if items == [] then [] else pieces(items[0]) + Many(items[1..], pieces)
  }

  lemma ManyOne<T>(x: T, pieces: T -> seq<seq<byte>>)
    ensures Many([x], pieces) == pieces(x)
  {
    assert [x][1..] == [];
  }

  lemma ManyTwo<T>(x: T, y: T, pieces: T -> seq<seq<byte>>)
    ensures Many([x, y], pieces) == pieces(x) + pieces(y)
  {
    assert [x, y][1..] == [y];
    ManyOne(y, pieces);
  }

  function TxPieces(tx: Tx): seq<seq<byte>> {
    [LE(tx.version, 4)] + ([EncodeVarInt(|tx.ins|)] + (Many(tx.ins, InPieces)
      + ([EncodeVarInt(|tx.outs|)] + (Many(tx.outs, OutPieces) + [LE(tx.lockTime, 4)]))))
  }

  function SerializeTx(tx: Tx): seq<byte> {
    Cat(TxPieces(tx))
  }

  // ----- the parser -----

  function ReadScript(s: seq<byte>): Read<seq<byte>> {
    var n := ReadVarInt(s);
    if n.NoRead? then NoRead else ReadBytes(n.rest, n.value)
  }

  function ReadIn(s: seq<byte>): Read<TxIn> {
    var hash := ReadBytes(s, 32);
    if hash.NoRead? then NoRead else
    var index := ReadLE(hash.rest, 4);
    if index.NoRead? then NoRead else
    var script := ReadScript(index.rest);
    if script.NoRead? then NoRead else
    var sequence := ReadLE(script.rest, 4);
    if sequence.NoRead? then NoRead else
    Read(TxIn(hash.value, index.value, script.value, sequence.value), sequence.rest)
  }

  function ReadOut(s: seq<byte>): Read<TxOut> {
    var value := ReadLE(s, 8);
    if value.NoRead? then NoRead else
    var script := ReadScript(value.rest);
    if script.NoRead? then NoRead else
    Read(TxOut(Signed(value.value), script.value), script.rest)
  }

  function ReadMany<T>(s: seq<byte>, n: nat, read: seq<byte> -> Read<T>): Read<seq<T>>
    decreases n
  {
    if n == 0 then Read([], s) else
    var first := read(s);
    if first.NoRead? then NoRead else
    var others := ReadMany(first.rest, n - 1, read);
    if others.NoRead? then NoRead else Read([first.value] + others.value, others.rest)
  }

  function ReadTx(s: seq<byte>): Read<Tx> {
    var version := ReadLE(s, 4);
    if version.NoRead? then NoRead else
    var nIns := ReadVarInt(version.rest);
    if nIns.NoRead? then NoRead else
    var ins := ReadMany(nIns.rest, nIns.value, ReadIn);
    if ins.NoRead? then NoRead else
    var nOuts := ReadVarInt(ins.rest);
    if nOuts.NoRead? then NoRead else
    var outs := ReadMany(nOuts.rest, nOuts.value, ReadOut);
    if outs.NoRead? then NoRead else
    var lockTime := ReadLE(outs.rest, 4);
    if lockTime.NoRead? then NoRead
    else Read(Tx(version.value, ins.value, outs.value, lockTime.value), lockTime.rest)
  }

  /** A whole transaction, with no byte left over. */
  function ParseTx(s: seq<byte>): Option<Tx> {
    var tx := ReadTx(s);
    if tx.NoRead? || tx.rest != [] then None else Some(tx.value)
  }

  // ----- the parser inverts the serialiser -----

  lemma ReadScriptBack(script: seq<byte>, rest: seq<byte>)
    requires |script| < 0x1_0000_0000_0000_0000
    ensures ReadScript(EncodeVarInt(|script|) + (script + rest)) == Read(script, rest)
  {
    VarIntReadsBack(|script|, script + rest);
    ReadBytesBack(script, rest);
  }

  lemma InPiecesCat(i: TxIn, ps: seq<seq<byte>>)
    ensures Cat(InPieces(i) + ps)
      == i.prevHash + (LE(i.prevIndex, 4) + (EncodeVarInt(|i.script|) + (i.script + (LE(i.sequence, 4) + Cat(ps)))))
  {
    var p := InPieces(i);
    CatCons(p[4], ps);
    CatCons(p[3], [p[4]] + ps);
    CatCons(p[2], [p[3]] + ([p[4]] + ps));
    CatCons(p[1], [p[2]] + ([p[3]] + ([p[4]] + ps)));
    CatCons(p[0], [p[1]] + ([p[2]] + ([p[3]] + ([p[4]] + ps))));
    assert p + ps == [p[0]] + ([p[1]] + ([p[2]] + ([p[3]] + ([p[4]] + ps))));
  }

  lemma OutPiecesCat(o: TxOut, ps: seq<seq<byte>>)
    ensures Cat(OutPieces(o) + ps) == LE(Unsigned(o.value), 8) + (EncodeVarInt(|o.script|) + (o.script + Cat(ps)))
  {
    var p := OutPieces(o);
    CatCons(p[2], ps);
    CatCons(p[1], [p[2]] + ps);
    CatCons(p[0], [p[1]] + ([p[2]] + ps));
    assert p + ps == [p[0]] + ([p[1]] + ([p[2]] + ps));
  }

  lemma ReadInBack(i: TxIn, rest: seq<byte>)
    requires InOk(i)
    ensures ReadIn(i.prevHash + (LE(i.prevIndex, 4) + (EncodeVarInt(|i.script|) + (i.script + (LE(i.sequence, 4) + rest)))))
      == Read(i, rest)
  {
    Pow256Values();
    var r4 := LE(i.sequence, 4) + rest;
    var r2 := EncodeVarInt(|i.script|) + (i.script + r4);
    ReadBytesBack(i.prevHash, LE(i.prevIndex, 4) + r2);
    ReadLEBack(i.prevIndex, 4, r2);
    ReadScriptBack(i.script, r4);
    ReadLEBack(i.sequence, 4, rest);
  }

  lemma ReadOutBack(o: TxOut, rest: seq<byte>)
    requires OutOk(o)
    ensures ReadOut(LE(Unsigned(o.value), 8) + (EncodeVarInt(|o.script|) + (o.script + rest))) == Read(o, rest)
  {
    Pow256Values();
    ReadLEBack(Unsigned(o.value), 8, EncodeVarInt(|o.script|) + (o.script + rest));
    ReadScriptBack(o.script, rest);
  }

  lemma ReadOneIn(i: TxIn, ps: seq<seq<byte>>)
    requires InOk(i)
    ensures ReadIn(Cat(InPieces(i) + ps)) == Read(i, Cat(ps))
  {
    InPiecesCat(i, ps);
    ReadInBack(i, Cat(ps));
  }

  lemma ReadOneOut(o: TxOut, ps: seq<seq<byte>>)
    requires OutOk(o)
    ensures ReadOut(Cat(OutPieces(o) + ps)) == Read(o, Cat(ps))
  {
    OutPiecesCat(o, ps);
    ReadOutBack(o, Cat(ps));
  }

  /** An item is read back from its pieces, whatever follows. */
  ghost predicate ReadsBack<T>(x: T, pieces: T -> seq<seq<byte>>, read: seq<byte> -> Read<T>) {
    forall qs :: read(Cat(pieces(x) + qs)) == Read(x, Cat(qs))
  }

  lemma ReadOneMore<T>(s: seq<byte>, n: nat, read: seq<byte> -> Read<T>, x: T, rest: seq<byte>, others: seq<T>, last: seq<byte>)
    requires n > 0 && read(s) == Read(x, rest) && ReadMany(rest, n - 1, read) == Read(others, last)
    ensures ReadMany(s, n, read) == Read([x] + others, last)
  {
  }

  /** If every item is read back from its pieces, so is a list of items. */
  lemma {:induction false} ReadManyBack<T>(items: seq<T>, pieces: T -> seq<seq<byte>>, read: seq<byte> -> Read<T>, ps: seq<seq<byte>>)
    requires forall x :: x in items ==> ReadsBack(x, pieces, read)
    ensures ReadMany(Cat(Many(items, pieces) + ps), |items|, read) == Read(items, Cat(ps))
  {
    if items == [] {
      assert Many(items, pieces) + ps == ps;
    } else {
      var x, more := items[0], items[1..];
      var others := Many(more, pieces) + ps;
      ReadManyBack(more, pieces, read, ps);
      assert Many(items, pieces) + ps == pieces(x) + others;
      assert ReadsBack(x, pieces, read);
      ReadOneMore(Cat(pieces(x) + others), |items|, read, x, Cat(others), more, Cat(ps));
      assert items == [x] + more;
    }
  }

  lemma ReadInsBack(ins: seq<TxIn>, ps: seq<seq<byte>>)
    requires forall k :: 0 <= k < |ins| ==> InOk(ins[k])
    ensures ReadMany(Cat(Many(ins, InPieces) + ps), |ins|, ReadIn) == Read(ins, Cat(ps))
  {
    forall x | x in ins ensures ReadsBack(x, InPieces, ReadIn) {
      forall qs ensures ReadIn(Cat(InPieces(x) + qs)) == Read(x, Cat(qs)) {
        ReadOneIn(x, qs);
      }
    }
    ReadManyBack(ins, InPieces, ReadIn, ps);
  }

  lemma ReadOutsBack(outs: seq<TxOut>, ps: seq<seq<byte>>)
    requires forall k :: 0 <= k < |outs| ==> OutOk(outs[k])
    ensures ReadMany(Cat(Many(outs, OutPieces) + ps), |outs|, ReadOut) == Read(outs, Cat(ps))
  {
    forall x | x in outs ensures ReadsBack(x, OutPieces, ReadOut) {
      forall qs ensures ReadOut(Cat(OutPieces(x) + qs)) == Read(x, Cat(qs)) {
        ReadOneOut(x, qs);
      }
    }
    ReadManyBack(outs, OutPieces, ReadOut, ps);
  }

  /** A transaction is read back from its pieces, and nothing else is consumed. */
  lemma ReadTxBack(tx: Tx, ps: seq<seq<byte>>)
    requires TxOk(tx)
    ensures ReadTx(Cat(TxPieces(tx) + ps)) == Read(tx, Cat(ps))
  {
    Pow256Values();
    var p6 := [LE(tx.lockTime, 4)] + ps;
    var p5 := Many(tx.outs, OutPieces) + p6;
    var p4 := [EncodeVarInt(|tx.outs|)] + p5;
    var p3 := Many(tx.ins, InPieces) + p4;
    var p2 := [EncodeVarInt(|tx.ins|)] + p3;
    TxPiecesOrder(tx, ps);
    CatCons(LE(tx.version, 4), p2);
    ReadLEBack(tx.version, 4, Cat(p2));
    CatCons(EncodeVarInt(|tx.ins|), p3);
    VarIntReadsBack(|tx.ins|, Cat(p3));
    ReadInsBack(tx.ins, p4);
    CatCons(EncodeVarInt(|tx.outs|), p5);
    VarIntReadsBack(|tx.outs|, Cat(p5));
    ReadOutsBack(tx.outs, p6);
    CatCons(LE(tx.lockTime, 4), ps);
    ReadLEBack(tx.lockTime, 4, Cat(ps));
  }

  lemma TxPiecesOrder(tx: Tx, ps: seq<seq<byte>>)
    ensures TxPieces(tx) + ps
      == [LE(tx.version, 4)] + ([EncodeVarInt(|tx.ins|)] + (Many(tx.ins, InPieces)
         + ([EncodeVarInt(|tx.outs|)] + (Many(tx.outs, OutPieces) + ([LE(tx.lockTime, 4)] + ps)))))
  {
  }

  /** Every well-formed transaction is parsed back, and its bytes are used up. */
  lemma ParseInvertsSerialize(tx: Tx)
    requires TxOk(tx)
    ensures ParseTx(SerializeTx(tx)) == Some(tx)
  {
    ReadTxBack(tx, []);
    assert TxPieces(tx) + [] == TxPieces(tx);
  }
}
