/** Variable-length integers and the BIP 34 height push, each with a reader that accepts exactly what is written. */
module Encoding {
  import opened Bytes

  lemma Pow256Values()
    ensures Pow256(1) == 0x100 && Pow256(2) == 0x1_0000 && Pow256(4) == 0x1_0000_0000
    ensures Pow256(8) == 0x1_0000_0000_0000_0000
  {
    assert Pow256(1) == 256 * Pow256(0);
    assert Pow256(2) == 256 * Pow256(1);
    assert Pow256(3) == 256 * Pow256(2);
    assert Pow256(4) == 256 * Pow256(3);
    assert Pow256(5) == 256 * Pow256(4);
    assert Pow256(6) == 256 * Pow256(5);
    assert Pow256(7) == 256 * Pow256(6);
    assert Pow256(8) == 256 * Pow256(7);
  }

  // ----- readers -----

  datatype Read<+T> = NoRead | Read(value: T, rest: seq<byte>)

  function ReadBytes(s: seq<byte>, n: nat): Read<seq<byte>> {
    if |s| < n then NoRead else Read(s[..n], s[n..])
  }

  function ReadLE(s: seq<byte>, n: nat): Read<nat> {
    if |s| < n then NoRead else Read(LEVal(s[..n]), s[n..])
  }

  lemma ReadBytesBack(b: seq<byte>, rest: seq<byte>)
    ensures ReadBytes(b + rest, |b|) == Read(b, rest)
  {
  }

  lemma ReadLEBack(v: nat, n: nat, rest: seq<byte>)
    requires v < Pow256(n)
    ensures ReadLE(LE(v, n) + rest, n) == Read(v, rest)
  {
    LERoundTrip(v, n);
    assert (LE(v, n) + rest)[..n] == LE(v, n);
  }

  // ----- variable-length integers -----

  /** encodeVarInt. */
  function EncodeVarInt(v: nat): seq<byte> {
    if v < 0xfd then [v]
    else if v <= 0xffff then [0xfd] + LE(v, 2)
    else if v <= 0xffff_ffff then [0xfe] + LE(v, 4)
    else [0xff] + LE(v, 8)
  }

  /** The marker byte of the long forms, with the width of the field behind it and the least value it may hold. */
  function FieldWidth(marker: byte): nat {
    if marker == 0xfd then 2 else if marker == 0xfe then 4 else 8
  }

  function FieldLeast(marker: byte): nat {
    if marker == 0xfd then 0xfd else if marker == 0xfe then 0x1_0000 else 0x1_0000_0000
  }

  /** Reads a variable-length integer and insists on the shortest form. */
  function ReadVarInt(s: seq<byte>): Read<nat> {
    if s == [] then NoRead
    else if s[0] < 0xfd then Read(s[0], s[1..])
    else
      var r := ReadLE(s[1..], FieldWidth(s[0]));
      if r.NoRead? || r.value < FieldLeast(s[0]) then NoRead else r
  }

  function MarkerOf(v: nat): byte {
    if v <= 0xffff then 0xfd else if v <= 0xffff_ffff then 0xfe else 0xff
  }

  lemma LongForm(v: nat)
    requires 0xfd <= v < 0x1_0000_0000_0000_0000
    ensures EncodeVarInt(v) == [MarkerOf(v)] + LE(v, FieldWidth(MarkerOf(v)))
    ensures v < Pow256(FieldWidth(MarkerOf(v))) && v >= FieldLeast(MarkerOf(v))
  {
    Pow256Values();
  }

  lemma LongFormReadsBack(marker: byte, v: nat, field: seq<byte>, rest: seq<byte>)
    requires marker >= 0xfd && FieldLeast(marker) <= v < Pow256(FieldWidth(marker))
    requires field == LE(v, FieldWidth(marker))
    ensures ReadVarInt([marker] + field + rest) == Read(v, rest)
  {
    ReadLEBack(v, FieldWidth(marker), rest);
    assert ([marker] + field + rest)[1..] == field + rest;
  }

  /** Every uint64 is read back, whatever follows it. */
  lemma VarIntReadsBack(v: nat, rest: seq<byte>)
    requires v < 0x1_0000_0000_0000_0000
    ensures ReadVarInt(EncodeVarInt(v) + rest) == Read(v, rest)
  {
    if v < 0xfd {
      assert (EncodeVarInt(v) + rest)[1..] == rest;
    } else {
      LongForm(v);
      var field := LE(v, FieldWidth(MarkerOf(v)));
      LongFormReadsBack(MarkerOf(v), v, field, rest);
    }
  }

  lemma LongFormOf(marker: byte, v: nat)
    requires marker >= 0xfd && FieldLeast(marker) <= v < Pow256(FieldWidth(marker))
    ensures MarkerOf(v) == marker && v < 0x1_0000_0000_0000_0000
  {
    Pow256Values();
  }

  /** The reader accepts nothing but encodings. */
  lemma VarIntOnlyEncodings(s: seq<byte>)
    requires ReadVarInt(s).Read?
    ensures var r := ReadVarInt(s); s == EncodeVarInt(r.value) + r.rest && r.value < 0x1_0000_0000_0000_0000
  {
    var r := ReadVarInt(s);
    if s[0] >= 0xfd {
      var n := FieldWidth(s[0]);
      var field := s[1..][..n];
      LEOfValue(field);
      LEValBound(field);
      LongFormOf(s[0], r.value);
      LongForm(r.value);
      assert s == [s[0]] + (field + s[1..][n..]);
    }
  }

  // ----- block heights -----

  /** encodeHeight for every int64; for 1..16 this is OP_1..OP_16. */
  function HeightPush(h: int): seq<byte> {
    if h <= 16 then [(0x50 + h) % 256]
    else
      var buf := SignSafe(MinLE(h));
      [|buf| % 256] + buf
  }

  /** One zero byte more if the top bit is set, so that the number does not read as negative. */
  function SignSafe(b: seq<byte>): seq<byte> {
    if b != [] && b[|b| - 1] >= 0x80 then b + [0] else b
  }

  method EncodeHeight(h: int) returns (push: seq<byte>)
    requires h < 0x8000_0000_0000_0000
    ensures push == HeightPush(h)
  {
    if h <= 16 {
      return [(0x50 + h) % 256];
    }
    var buf := LowBytes(h);
    MinLEValue(h);
    if buf[|buf| - 1] >= 0x80 {
      buf := buf + [0];
    }
    push := [|buf| % 256] + buf;
  }

  /** The loop of encodeHeight. */
  method LowBytes(h: nat) returns (buf: seq<byte>)
    ensures buf == MinLE(h)
  {
    buf := [];
    var v := h;
    while v > 0
      invariant buf + MinLE(v) == MinLE(h)
    {
      buf := buf + [v % 256];
      v := v / 256;
    }
  }

  /** The script number reader of BIP 34: OP_1..OP_16, or a direct push of a positive number above 16 with no byte more
      than its sign needs. */
  function ReadHeight(s: seq<byte>): Read<nat> {
    if s == [] then NoRead
    else if 0x51 <= s[0] <= 0x60 then Read(s[0] - 0x50, s[1..])
    else if !(1 <= s[0] <= 75) || |s| - 1 < s[0] then NoRead
    else
      var data := s[1..1 + s[0]];
      if IsMinimalPositive(data) && LEVal(data) > 16 then Read(LEVal(data), s[1 + s[0]..]) else NoRead
  }

  predicate IsMinimalPositive(data: seq<byte>) {
    && data != [] && data[|data| - 1] < 0x80
    && (data[|data| - 1] == 0 ==> |data| >= 2 && data[|data| - 2] >= 0x80)
  }

  lemma {:induction false} MinLELength(v: nat, n: nat)
    requires v < Pow256(n)
    ensures |MinLE(v)| <= n
  {
    if v > 0 {
      MinLELength(v / 256, n - 1);
    }
  }

  lemma {:induction false} TopZeroAddsNothing(b: seq<byte>)
    ensures LEVal(b + [0]) == LEVal(b)
  {
    if b != [] {
      assert (b + [0])[1..] == b[1..] + [0];
      TopZeroAddsNothing(b[1..]);
    } else {
      var zero: seq<byte> := [0];
      assert zero[1..] == [] && LEVal(zero) == 0;
      assert b + [0] == zero;
    }
  }

  lemma SignSafeIsMinimal(b: seq<byte>)
    requires b != [] && NoTopZero(b)
    ensures IsMinimalPositive(SignSafe(b)) && LEVal(SignSafe(b)) == LEVal(b) && |SignSafe(b)| <= |b| + 1
  {
    TopZeroAddsNothing(b);
  }

  lemma PushParts(n: byte, buf: seq<byte>, rest: seq<byte>)
    requires n == |buf|
    ensures var s := [n] + buf + rest;
      |s| == 1 + n + |rest| && s[0] == n && s[1..1 + n] == buf && s[1 + n..] == rest
  {
  }

  lemma DirectPushReadsBack(buf: seq<byte>, rest: seq<byte>)
    requires IsMinimalPositive(buf) && |buf| <= 75 && LEVal(buf) > 16
    ensures ReadHeight([|buf|] + buf + rest) == Read(LEVal(buf), rest)
  {
    var n: byte := |buf|;
    PushParts(n, buf, rest);
  }

  lemma HeightBytes(h: int)
    requires 16 < h < 0x8000_0000_0000_0000
    ensures var b := MinLE(h); LEVal(b) == h && b != [] && NoTopZero(b) && |b| <= 8
  {
    Pow256Values();
    MinLEValue(h);
    MinLELength(h, 8);
  }

  lemma HighHeightPush(h: int) returns (buf: seq<byte>)
    requires 16 < h < 0x8000_0000_0000_0000
    ensures HeightPush(h) == [|buf|] + buf && LEVal(buf) == h && |buf| <= 9 && IsMinimalPositive(buf)
  {
    HeightBytes(h);
    var b := MinLE(h);
    SignSafeIsMinimal(b);
    buf := SignSafe(b);
    SmallLength(buf);
  }

  lemma SmallLength(buf: seq<byte>)
    requires |buf| <= 75
    ensures |buf| % 256 == |buf|
  {
  }

  /** From block 1 on, the push is minimal, does not read as negative, and decodes to the height. */
  lemma HeightReadsBack(h: int, rest: seq<byte>)
    requires 1 <= h < 0x8000_0000_0000_0000
    ensures ReadHeight(HeightPush(h) + rest) == Read(h, rest)
  {
    var s := HeightPush(h) + rest;
    if h > 16 {
      var buf := HighHeightPush(h);
      DirectPushReadsBack(buf, rest);
    } else {
      assert s[1..] == rest;
    }
  }

  lemma MinimalIsSignSafe(data: seq<byte>)
    requires IsMinimalPositive(data)
    ensures SignSafe(MinLE(LEVal(data))) == data
  {
    if data[|data| - 1] == 0 {
      var b := data[..|data| - 1];
      assert data == b + [0];
      TopZeroAddsNothing(b);
      MinLEUnique(b);
    } else {
      MinLEUnique(data);
    }
  }

  lemma DirectPushOnly(data: seq<byte>)
    requires IsMinimalPositive(data) && |data| <= 75 && LEVal(data) > 16
    ensures HeightPush(LEVal(data)) == [|data|] + data
  {
    MinimalIsSignSafe(data);
    SmallLength(data);
  }

  /** No other push decodes to the same height. */
  lemma HeightOnlyPushes(s: seq<byte>)
    requires ReadHeight(s).Read?
    ensures var r := ReadHeight(s); s == HeightPush(r.value) + r.rest && r.value >= 1
  {
    if !(0x51 <= s[0] <= 0x60) {
      var data := s[1..1 + s[0]];
      DirectPushOnly(data);
      assert s == [s[0]] + data + s[1 + s[0]..];
    }
  }
}
