/** The block handed to the network when a submission meets the target (buildBlockHex), and how it reads back. */
module Block {
  import opened Options
  import opened Bytes
  import opened Hex
  import opened Merkle
  import opened Encoding
  import opened Transactions
  import opened Coinbase
  import opened Work

  /** The shipped loop: header, count, coinbase, then the raw transactions of the job. */
  method BuildBlockHex(header: seq<byte>, coinbaseTx: seq<byte>, raw: seq<seq<byte>>) returns (hex: string)
    ensures hex == HexEncode(header + (EncodeVarInt(1 + |raw|) + (coinbaseTx + Cat(raw))))
  {
    var buf := header;
    var txCount := 1 + |raw|;
    buf := buf + EncodeVarInt(txCount);
    buf := buf + coinbaseTx;
    ghost var start := buf;
    for i := 0 to |raw|
      invariant buf == start + Cat(raw[..i])
    {
      CatAppend(raw[..i], [raw[i]]);
      CatOne(raw[i]);
      assert raw[..i + 1] == raw[..i] + [raw[i]];
      buf := buf + raw[i];
    }
    assert raw[..|raw|] == raw;
    hex := HexEncode(buf);
    assert buf == header + (EncodeVarInt(1 + |raw|) + (coinbaseTx + Cat(raw)));
  }

  /** The header's fields, read at their offsets. */
  datatype Header = Header(version: nat, prev: seq<byte>, root: seq<byte>, time: nat, bits: nat, nonce: nat)

  function ReadHeader(s: seq<byte>): Read<Header> {
    if |s| < 80 then NoRead
    else Read(Header(LEVal(s[..4]), s[4..36], s[36..68], LEVal(s[68..72]), LEVal(s[72..76]), LEVal(s[76..80])), s[80..])
  }

  datatype ParsedBlock = ParsedBlock(header: Header, count: nat, coinbase: Tx, others: seq<byte>)

  /** Header, number of transactions, the first transaction, and the bytes of the others. */
  function ParseBytes(s: seq<byte>): Option<ParsedBlock> {
    var header := ReadHeader(s);
    if header.NoRead? then None else
    var count := ReadVarInt(header.rest);
    if count.NoRead? then None else
    var coinbase := ReadTx(count.rest);
    if coinbase.NoRead? then None
    else Some(ParsedBlock(header.value, count.value, coinbase.value, coinbase.rest))
  }

  function ParseBlock(hex: string): Option<ParsedBlock> {
    var bytes := HexDecode(hex);
    if bytes.None? then None else ParseBytes(bytes.value)
  }

  lemma SevenParts(a: seq<byte>, b: seq<byte>, c: seq<byte>, d: seq<byte>, e: seq<byte>, f: seq<byte>, rest: seq<byte>)
    requires |a| == 4 && |b| == 32 && |c| == 32 && |d| == 4 && |e| == 4 && |f| == 4
    ensures var s := a + b + c + d + e + f + rest;
      && s[..4] == a && s[4..36] == b && s[36..68] == c && s[68..72] == d && s[72..76] == e && s[76..80] == f && s[80..] == rest
  {
  }

  lemma ReadHeaderBack(version: nat, prev: Digest, root: Digest, time: nat, bits: nat, nonce: nat, rest: seq<byte>)
    requires version <= MAX32 && time <= MAX32 && bits <= MAX32 && nonce <= MAX32
    ensures ReadHeader(HeaderBytes(version, prev, root, time, bits, nonce) + rest)
      == Read(Header(version, prev, root, time, bits, nonce), rest)
  {
    FieldReadsBack(version);
    FieldReadsBack(time);
    FieldReadsBack(bits);
    FieldReadsBack(nonce);
    SevenParts(LE(version, 4), prev, root, LE(time, 4), LE(bits, 4), LE(nonce, 4), rest);
  }

  lemma FieldReadsBack(v: nat)
    requires v <= MAX32
    ensures LEVal(LE(v, 4)) == v
  {
    Pow256Values();
    LERoundTrip(v, 4);
  }

  /** What job construction and a submission determine about a block. */
  predicate JobOk(j: Job, r: Request, q: Work) {
    && j.version <= MAX32 && j.bits <= MAX32 && WorkOk(q) && RequestOk(r)
    && TxOk(CoinbaseTx(r, q.en1, q.en2))
    && CoinbaseBytes(j, q) == SerializeTx(CoinbaseTx(r, q.en1, q.en2))
  }

  /** The submitted text reads back as the job's header fields with the miner's time and nonce, the right number of
      transactions, the coinbase that pays as requested, and the bytes of the other transactions, with nothing lost. */
  lemma BlockReadsBack(dsha: Hasher, j: Job, r: Request, q: Work, raw: seq<seq<byte>>)
    requires JobOk(j, r, q) && |raw| < 0x1_0000_0000
    ensures var root := Fold(Pair(dsha), dsha(CoinbaseBytes(j, q)), j.branch);
      ParseBlock(HexEncode(HeaderOf(dsha, j, q) + (EncodeVarInt(1 + |raw|) + (CoinbaseBytes(j, q) + Cat(raw)))))
      == Some(ParsedBlock(Header(j.version, j.prevHash, root, q.ntime, j.bits, q.nonce), 1 + |raw|,
                          CoinbaseTx(r, q.en1, q.en2), Cat(raw)))
  {
    var root := Fold(Pair(dsha), dsha(CoinbaseBytes(j, q)), j.branch);
    var tx := CoinbaseTx(r, q.en1, q.en2);
    var afterHeader := EncodeVarInt(1 + |raw|) + (CoinbaseBytes(j, q) + Cat(raw));
    ReadHeaderBack(j.version, j.prevHash, root, q.ntime, j.bits, q.nonce, afterHeader);
    ParseBytesBack(HeaderOf(dsha, j, q), Header(j.version, j.prevHash, root, q.ntime, j.bits, q.nonce), tx, raw);
    ParseBlockOfHex(HeaderOf(dsha, j, q) + afterHeader);
  }

  lemma ParseBlockOfHex(bytes: seq<byte>)
    ensures ParseBlock(HexEncode(bytes)) == ParseBytes(bytes)
  {
    HexRoundTrip(bytes);
  }

  lemma ParseBytesBack(header: seq<byte>, h: Header, tx: Tx, raw: seq<seq<byte>>)
    requires TxOk(tx) && |raw| < 0x1_0000_0000
    requires var rest := EncodeVarInt(1 + |raw|) + (SerializeTx(tx) + Cat(raw)); ReadHeader(header + rest) == Read(h, rest)
    ensures ParseBytes(header + (EncodeVarInt(1 + |raw|) + (SerializeTx(tx) + Cat(raw))))
      == Some(ParsedBlock(h, 1 + |raw|, tx, Cat(raw)))
  {
    var rest := SerializeTx(tx) + Cat(raw);
    CountAndCoinbaseReadBack(tx, raw);
    ParseInTurn(header + (EncodeVarInt(1 + |raw|) + rest), h, EncodeVarInt(1 + |raw|) + rest, 1 + |raw|, rest, tx, Cat(raw));
  }

  lemma ParseInTurn(s: seq<byte>, h: Header, afterHeader: seq<byte>, n: nat, afterCount: seq<byte>, tx: Tx, others: seq<byte>)
    requires ReadHeader(s) == Read(h, afterHeader)
    requires ReadVarInt(afterHeader) == Read(n, afterCount) && ReadTx(afterCount) == Read(tx, others)
    ensures ParseBytes(s) == Some(ParsedBlock(h, n, tx, others))
  {
  }

  lemma CountAndCoinbaseReadBack(tx: Tx, raw: seq<seq<byte>>)
    requires TxOk(tx) && |raw| < 0x1_0000_0000
    ensures var afterCount := SerializeTx(tx) + Cat(raw);
      && ReadVarInt(EncodeVarInt(1 + |raw|) + afterCount) == Read(1 + |raw|, afterCount)
      && ReadTx(afterCount) == Read(tx, Cat(raw))
  {
    VarIntReadsBack(1 + |raw|, SerializeTx(tx) + Cat(raw));
    CatAppend(TxPieces(tx), raw);
    ReadTxBack(tx, raw);
  }
}
