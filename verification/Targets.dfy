/** What the compact target, the difficulty-1 target and the texts of a submission stand for. */
module Targets {
  import opened Options
  import opened Bytes
  import opened Encoding
  import opened Hex
  import opened Work

  // ----- compact targets -----

  function ZeroBytes(n: nat): (z: seq<byte>)
    ensures |z| == n
  {
    if n == 0 then [] else [0] + ZeroBytes(n - 1)
  }

  /** The low 23 bits of a compact target as three bytes, least significant first. */
  function Mantissa(bits: nat): seq<byte> {
    [bits % 256, bits / 0x100 % 256, bits / 0x1_0000 % 128]
  }

  /** A compact target with exponent `e` stands for a number of `e` bytes: the mantissa's three bytes on top and zeros
      below, of which an exponent under three cuts off the low ones. */
  lemma TargetBytes(bits: nat)
    requires bits < 0x1_0000_0000
    ensures var e, t := bits / 0x100_0000, TargetFromBits(bits);
      t < Pow256(e) && LE(t, e) == (ZeroBytes(e) + Mantissa(bits))[3..]
  {
    var e, man := bits / 0x100_0000, bits % 0x80_0000;
    assert e % 256 == e;
    MantissaIs(bits);
    if e >= 3 {
      ShiftedIs(man, e - 3);
      ShiftedBytes(man, e - 3);
      ZerosTail(e, 3);
      assert (ZeroBytes(e) + Mantissa(bits))[3..] == ZeroBytes(e)[3..] + Mantissa(bits);
      assert e == 3 ==> man * Pow256(0) == man;
    } else {
      ShortTarget(bits, e);
    }
  }

  lemma MantissaDigits(bits: nat)
    ensures var man := bits % 0x80_0000;
      man % 256 == bits % 256 && man / 256 % 256 == bits / 256 % 256 && man / 256 / 256 == bits / 0x1_0000 % 128
  {
    var hi, man := bits / 0x80_0000, bits % 0x80_0000;
    var a, b, c := man % 256, man / 256 % 256, man / 256 / 256;
    assert bits == 256 * (b + 256 * (c + 128 * hi)) + a;
    assert bits / 256 == b + 256 * (c + 128 * hi);
    assert bits / 0x1_0000 == c + 128 * hi && c < 128;
  }

  lemma ThreeBytes(v: nat)
    requires v < 0x80_0000
    ensures LE(v, 3) == [v % 256, v / 256 % 256, v / 256 / 256]
    ensures LE(v / 256, 2) == [v / 256 % 256, v / 256 / 256] && LE(v / 256 / 256, 1) == [v / 256 / 256]
  {
    var b, c := v / 256, v / 256 / 256;
    assert LE(c, 1) == [c % 256] + LE(c / 256, 0);
    assert LE(b, 2) == [b % 256] + LE(c, 1);
    assert LE(v, 3) == [v % 256] + LE(b, 2);
  }

  lemma MantissaIs(bits: nat)
    ensures LE(bits % 0x80_0000, 3) == Mantissa(bits)
  {
    MantissaDigits(bits);
    ThreeBytes(bits % 0x80_0000);
  }

  lemma {:induction false} ZerosTail(n: nat, k: nat)
    requires k <= n
    ensures ZeroBytes(n)[k..] == ZeroBytes(n - k)
  {
    if k > 0 {
      ZerosTail(n - 1, k - 1);
      assert ZeroBytes(n)[k..] == ZeroBytes(n - 1)[k - 1..];
    }
  }

  /** A number shifted up by whole bytes. */
  function Shifted(man: nat, k: nat): nat {
    if k == 0 then man else 256 * Shifted(man, k - 1)
  }

  lemma {:induction false} ShiftedIs(man: nat, k: nat)
    ensures Shifted(man, k) == man * Pow256(k)
  {
    if k > 0 {
      ShiftedIs(man, k - 1);
      var p := Pow256(k - 1);
      assert man * (256 * p) == 256 * (man * p);
    }
  }

  /** Shifting puts zero bytes below. */
  lemma {:induction false} ShiftedBytes(man: nat, k: nat)
    requires man < 0x80_0000
    ensures Shifted(man, k) < Pow256(k + 3) && LE(Shifted(man, k), k + 3) == ZeroBytes(k) + LE(man, 3)
  {
    if k == 0 {
      assert Pow256(1) == 256 && Pow256(2) == 256 * Pow256(1) && Pow256(3) == 256 * Pow256(2);
      assert ZeroBytes(0) + LE(man, 3) == LE(man, 3);
    } else {
      ShiftedBytes(man, k - 1);
      ByteBelow(Shifted(man, k), Shifted(man, k - 1), k + 2, ZeroBytes(k - 1) + LE(man, 3));
      assert ZeroBytes(k) + LE(man, 3) == [0] + (ZeroBytes(k - 1) + LE(man, 3));
    }
  }

  lemma ByteBelow(t: nat, u: nat, n: nat, bytes: seq<byte>)
    requires t == 256 * u && u < Pow256(n) && LE(u, n) == bytes
    ensures t < Pow256(n + 1) && LE(t, n + 1) == [0] + bytes
  {
    assert LE(t, n + 1) == [t % 256] + LE(t / 256, n);
    assert Pow256(n + 1) == 256 * Pow256(n);
  }

  lemma ShortTarget(bits: nat, e: nat)
    requires bits < 0x1_0000_0000 && e == bits / 0x100_0000 < 3
    ensures var t := TargetFromBits(bits); t < Pow256(e) && LE(t, e) == (ZeroBytes(e) + Mantissa(bits))[3..]
  {
    var man := bits % 0x80_0000;
    ThreeBytes(man);
    MantissaDigits(bits);
    assert Pow256(0) == 1 && Pow256(1) == 256 && Pow256(2) == 256 * Pow256(1);
    Shifts(man);
    var s := ZeroBytes(e) + Mantissa(bits);
    assert ZeroBytes(0) == [] && |ZeroBytes(e)| == e;
    if e == 0 {
      assert s[3..] == [];
    } else if e == 1 {
      assert s[3..] == [Mantissa(bits)[2]];
    } else {
      assert s[3..] == [Mantissa(bits)[1], Mantissa(bits)[2]];
    }
  }

  lemma Shifts(man: nat)
    requires man < 0x80_0000
    ensures man / 0x100_0000 == 0 && man / 0x1_0000 == man / 256 / 256 && man / 0x100 == man / 256
    ensures man / 0x1_0000 < 256 && man / 0x100 < 256 * 256
  {
  }

  /** The difficulty-1 target is the compact target 1d00ffff of the Bitcoin network. */
  lemma DifficultyOneTarget()
    ensures DIFF1 == TargetFromBits(0x1d00ffff)
  {
    Power26();
    assert 0x1d00ffff / 0x100_0000 == 29 && 0x1d00ffff % 0x80_0000 == 0xffff;
  }

  lemma Power26()
    ensures Pow256(26) == 0x1_0000_0000_0000_0000_0000_0000_0000_0000_0000_0000_0000_0000_0000
  {
    Pow256Values();
    assert Pow256(9) == 256 * Pow256(8);
    assert Pow256(10) == 256 * Pow256(9);
    assert Pow256(11) == 256 * Pow256(10);
    assert Pow256(12) == 256 * Pow256(11);
    assert Pow256(13) == 256 * Pow256(12);
    assert Pow256(14) == 256 * Pow256(13);
    assert Pow256(15) == 256 * Pow256(14);
    assert Pow256(16) == 256 * Pow256(15);
    assert Pow256(17) == 256 * Pow256(16);
    assert Pow256(18) == 256 * Pow256(17);
    assert Pow256(19) == 256 * Pow256(18);
    assert Pow256(20) == 256 * Pow256(19);
    assert Pow256(21) == 256 * Pow256(20);
    assert Pow256(22) == 256 * Pow256(21);
    assert Pow256(23) == 256 * Pow256(22);
    assert Pow256(24) == 256 * Pow256(23);
    assert Pow256(25) == 256 * Pow256(24);
    assert Pow256(26) == 256 * Pow256(25);
  }

  // ----- texts -----

  /** A number as eight hexadecimal digits, most significant first, as `%08x` and the miners write it. */
  function Text32(v: nat): string {
    HexEncode(Rev(LE(v, 4)))
  }

  lemma Text32Reads(v: nat)
    requires v < 0x1_0000_0000
    ensures |Text32(v)| == 8 && ParseHex32(Text32(v)) == Some(v)
  {
    Pow256Values();
    HexRoundTrip(Rev(LE(v, 4)));
    BEValOfRev(LE(v, 4));
    LERoundTrip(v, 4);
  }

  /** A submission is read as the miner meant it. */
  lemma SubmissionReadsBack(q: Work)
    requires WorkOk(q)
    ensures ParseWork(HexEncode(q.en1), HexEncode(q.en2), Text32(q.ntime), Text32(q.nonce)) == Some(q)
  {
    HexRoundTrip(q.en1);
    HexRoundTrip(q.en2);
    Text32Reads(q.ntime);
    Text32Reads(q.nonce);
  }

  /** The extranonce text of the k-th connection is eight digits that read as k, modulo 2^32. */
  lemma ExtranonceReads(k: nat)
    ensures |Extranonce1Hex(k)| == 8 && ParseHex32(Extranonce1Hex(k)) == Some(k % 0x1_0000_0000)
  {
    Text32Reads(k % 0x1_0000_0000);
  }

  /** A displayed hash, read as a big-endian number, is the number that is compared with the target. */
  lemma DisplayedHashIsTheNumber(h: Digest)
    ensures HexDecode(DisplayHash(h)).Some? && BEVal(HexDecode(DisplayHash(h)).value) == LEVal(h)
  {
    HexRoundTrip(Rev(h));
    BEValOfRev(h);
  }
}
