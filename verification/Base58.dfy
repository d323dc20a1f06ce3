/** base58 decoding by in-place base conversion, and the payout script of an address. */
module Base58 {
  import opened Bytes
  import opened Options

  /** The base-58 digits in order: 1-9, A-H, J-N, P-Z, a-k, m-z. */
  function CharOf(d: int): char
    requires 0 <= d < 58
  {
    if d < 9 then '1' + d as char
    else if d < 17 then 'A' + (d - 9) as char
    else if d < 22 then 'J' + (d - 17) as char
    else if d < 33 then 'P' + (d - 22) as char
    else if d < 44 then 'a' + (d - 33) as char
    else 'm' + (d - 44) as char
  }

  predicate IsDigit(c: char) {
    '1' <= c <= '9' || 'A' <= c <= 'H' || 'J' <= c <= 'N' || 'P' <= c <= 'Z' || 'a' <= c <= 'k' || 'm' <= c <= 'z'
  }

  /** The position of a character in the alphabet. */
  function DigitOf(c: char): (d: int)
    requires IsDigit(c)
    ensures 0 <= d < 58 && CharOf(d) == c
  {
    if c <= '9' then c as int - '1' as int
    else if c <= 'H' then c as int - 'A' as int + 9
    else if c <= 'N' then c as int - 'J' as int + 17
    else if c <= 'Z' then c as int - 'P' as int + 22
    else if c <= 'k' then c as int - 'a' as int + 33
    else c as int - 'm' as int + 44
  }

  const DIGITS := "123456789"
  const UPPER := "ABCDEFGH" + "JKLMN" + "PQRSTUVWXYZ"
  const LOWER := "abcdefghijk" + "mnopqrstuvwxyz"
  const ALPHABET: string := DIGITS + UPPER + LOWER

  lemma Consecutive(d: int)
    ensures 0 <= d < 9 ==> "123456789"[d] == '1' + d as char
    ensures 0 <= d < 8 ==> "ABCDEFGH"[d] == 'A' + d as char
    ensures 0 <= d < 5 ==> "JKLMN"[d] == 'J' + d as char
    ensures 0 <= d < 11 ==> "PQRSTUVWXYZ"[d] == 'P' + d as char
    ensures 0 <= d < 11 ==> "abcdefghijk"[d] == 'a' + d as char
    ensures 0 <= d < 14 ==> "mnopqrstuvwxyz"[d] == 'm' + d as char
  {
  }

  /** The digits are in the order of the alphabet. */
  lemma AlphabetOrder(d: int)
    requires 0 <= d < 58
    ensures |ALPHABET| == 58 && CharOf(d) == ALPHABET[d]
  {
    Consecutive(if d < 9 then d else if d < 17 then d - 9 else if d < 22 then d - 17 else if d < 33 then d - 22
      else if d < 44 then d - 33 else d - 44);
    assert |DIGITS| == 9 && |UPPER| == 24 && |LOWER| == 25;
    assert d < 9 ==> ALPHABET[d] == DIGITS[d];
    assert 9 <= d < 33 ==> ALPHABET[d] == UPPER[d - 9];
    assert 33 <= d ==> ALPHABET[d] == LOWER[d - 33];
  }

  lemma DigitOfChar(d: int)
    requires 0 <= d < 58
    ensures IsDigit(CharOf(d)) && DigitOf(CharOf(d)) == d
  {
  }

  predicate Valid(s: string) {
    forall i :: 0 <= i < |s| ==> IsDigit(s[i])
  }

  /** The number that a string of base-58 digits stands for. */
  function Value58(s: string): nat
    requires Valid(s)
  {
    if s == "" then 0 else Value58(s[..|s| - 1]) * 58 + DigitOf(s[|s| - 1])
  }

  function LeadingOnes(s: string): (n: nat)
    ensures n <= |s|
  {
    if s == "" || s[0] != '1' then 0 else 1 + LeadingOnes(s[1..])
  }

  function Zeros(n: nat): (z: seq<byte>)
    ensures |z| == n && forall i :: 0 <= i < n ==> z[i] == 0
  {
    seq(n, _ => 0)
  }

  /** What the digits decode to before the checksum is cut off: one zero byte per leading '1', then the number
      big-endian without redundant bytes. */
  function FullDecode(s: string): seq<byte>
    requires Valid(s)
  {
    Rev(MinLE(Value58(s)) + Zeros(LeadingOnes(s)))
  }

  // ----- one digit: result * 58 + carry, in place -----

  /** `b * 58 + carry` on little-endian bytes. */
  function MulAdd(b: seq<byte>, carry: int): seq<byte>
    requires 0 <= carry < 58
  {
    if b == [] then (if carry == 0 then [] else [carry])
    else
      var c: int := carry + (b[0] as int) * 58;
      [c % 256] + MulAdd(b[1..], c / 256)
  }

  lemma MulAddCons(b: seq<byte>, carry: int)
    requires 0 <= carry < 58 && b != []
    ensures var c: int := carry + (b[0] as int) * 58;
      MulAdd(b, carry) == [c % 256] + MulAdd(b[1..], c / 256) && MulAdd(b, carry)[1..] == MulAdd(b[1..], c / 256)
  {
  }

  lemma {:induction false} MulAddValue(b: seq<byte>, carry: int)
    requires 0 <= carry < 58
    ensures LEVal(MulAdd(b, carry)) == LEVal(b) * 58 + carry
    ensures |b| <= |MulAdd(b, carry)| <= |b| + 1
  {
    if b != [] {
      var c: int := carry + (b[0] as int) * 58;
      MulAddValue(b[1..], c / 256);
      MulAddCons(b, carry);
      assert LEVal(MulAdd(b, carry)) == c % 256 + 256 * LEVal(MulAdd(b[1..], c / 256));
    }
  }

  lemma TopOfCons(x: byte, rest: seq<byte>)
    requires rest != [] && NoTopZero(rest)
    ensures NoTopZero([x] + rest)
  {
    assert ([x] + rest)[|rest|] == rest[|rest| - 1];
  }

  lemma LastByteStays(b: byte, carry: int)
    requires 0 <= carry < 58 && b != 0 && carry + (b as int) * 58 < 256
    ensures NoTopZero(MulAdd([b], carry))
  {
    assert [b][1..] == [];
  }

  lemma {:induction false} MulAddKeepsTop(b: seq<byte>, carry: int)
    requires 0 <= carry < 58 && NoTopZero(b)
    ensures NoTopZero(MulAdd(b, carry))
  {
    if b != [] {
      var c: int := carry + (b[0] as int) * 58;
      TailKeepsTop(b);
      MulAddKeepsTop(b[1..], c / 256);
      MulAddCons(b, carry);
      if MulAdd(b[1..], c / 256) == [] {
        MulAddValue(b[1..], c / 256);
        NothingCarried(b, carry);
      } else {
        TopOfCons(c % 256, MulAdd(b[1..], c / 256));
      }
    }
  }

  lemma TailKeepsTop(b: seq<byte>)
    requires b != [] && NoTopZero(b)
    ensures NoTopZero(b[1..])
  {
    assert b[1..] != [] ==> b[1..][|b| - 2] == b[|b| - 1];
  }

  lemma NothingCarried(b: seq<byte>, carry: int)
    requires 0 <= carry < 58 && |b| == 1 && NoTopZero(b) && MulAdd(b[1..], (carry + (b[0] as int) * 58) / 256) == []
    ensures NoTopZero(MulAdd(b, carry))
  {
    assert b == [b[0]];
    LastByteStays(b[0], carry);
  }

  /** One byte further: what is done grows by the low byte, and the high one is carried. */
  lemma MulAddStep(done: seq<byte>, rest: seq<byte>, carry: int)
    requires 0 <= carry < 58 && rest != []
    ensures var c: int := carry + (rest[0] as int) * 58;
      0 <= c / 256 < 58 && done + MulAdd(rest, carry) == done + [c % 256] + MulAdd(rest[1..], c / 256)
  {
    MulAddCons(rest, carry);
  }

  /** The digit loops of base58Decode on the bytes in `result[..n]`. */
  method MulAddInPlace(result: array<byte>, n: nat, digit: int) returns (m: nat)
    requires n < result.Length && 0 <= digit < 58
    modifies result
    ensures m <= result.Length && result[..m] == MulAdd(old(result[..n]), digit)
  {
    var carry := digit;
    ghost var was := result[..n];
    for i := 0 to n
      invariant 0 <= carry < 58
      invariant result[..i] + MulAdd(was[i..], carry) == MulAdd(was, digit)
      invariant result[i..n] == was[i..]
    {
      assert was[i..][0] == was[i] == result[i] && was[i..][1..] == was[i + 1..];
      MulAddStep(result[..i], was[i..], carry);
      carry := carry + (result[i] as int) * 58;
      result[i] := carry % 256;
      carry := carry / 256;
      assert result[..i + 1] == result[..i] + [result[i]];
    }
    m := n;
    assert was[n..] == [];
    while carry > 0
      invariant n <= m <= n + 1 && 0 <= carry < 58 && (m == n + 1 ==> carry == 0)
      invariant result[..m] + MulAdd([], carry) == MulAdd(was, digit)
      decreases carry
    {
      result[m] := carry % 256;
      carry := carry / 256;
      assert result[..m + 1] == result[..m] + [result[m]];
      m := m + 1;
    }
  }

  // ----- the whole decoder -----

  lemma {:induction false} LeadingOnesSnoc(s: string, c: char)
    ensures LeadingOnes(s + [c]) == if LeadingOnes(s) == |s| && c == '1' then |s| + 1 else LeadingOnes(s)
  {
    if s == "" {
      assert s + [c] == [c] && [c][1..] == "";
    } else {
      assert (s + [c])[1..] == s[1..] + [c];
      LeadingOnesSnoc(s[1..], c);
    }
  }

  lemma {:induction false} AllOnesAreZero(s: string)
    requires Valid(s) && LeadingOnes(s) == |s|
    ensures Value58(s) == 0
  {
    if s != "" {
      var init := s[..|s| - 1];
      assert s == init + [s[|s| - 1]];
      LeadingOnesSnoc(init, s[|s| - 1]);
      AllOnesAreZero(init);
    }
  }

  lemma ValueSnoc(s: string, i: nat)
    requires i < |s| && Valid(s)
    ensures Value58(s[..i + 1]) == Value58(s[..i]) * 58 + DigitOf(s[i])
  {
    assert s[..i + 1][..i] == s[..i];
  }

  /** The bytes never outgrow the string, so the buffer of capacity len(s) is never reallocated. */
  lemma RoomForOneMore(s: string, i: nat, before: seq<byte>)
    requires i < |s| && Valid(s)
    requires before == MinLE(Value58(s[..i])) && |before| + LeadingOnes(s[..i]) <= i
    ensures var after := MulAdd(before, DigitOf(s[i]));
      after == MinLE(Value58(s[..i + 1])) && |after| + LeadingOnes(s[..i + 1]) <= i + 1
  {
    var d := DigitOf(s[i]);
    MinLEValue(Value58(s[..i]));
    MulAddValue(before, d);
    MulAddKeepsTop(before, d);
    ValueSnoc(s, i);
    MinLEUnique(MulAdd(before, d));
    OnesAndBytes(s, i, d, before);
  }

  lemma OnesAndBytes(s: string, i: nat, d: int, before: seq<byte>)
    requires i < |s| && Valid(s) && d == DigitOf(s[i])
    requires before == MinLE(Value58(s[..i])) && |before| + LeadingOnes(s[..i]) <= i
    ensures |MulAdd(before, d)| + LeadingOnes(s[..i + 1]) <= i + 1
  {
    assert s[..i + 1] == s[..i] + [s[i]];
    LeadingOnesSnoc(s[..i], s[i]);
    MulAddValue(before, d);
    if LeadingOnes(s[..i]) == i {
      AllOnesAreZero(s[..i]);
      assert s[i] == '1' ==> d == 0;
    }
  }

  /** The outer loop of base58Decode: one digit after the other, into a buffer of capacity len(s). */
  method ConvertDigits(s: string, result: array<byte>) returns (ok: bool, n: nat)
    requires result.Length == |s|
    modifies result
    ensures ok == Valid(s)
    ensures ok ==> n + LeadingOnes(s) <= |s| && result[..n] == MinLE(Value58(s))
  {
    n := 0;
    for i := 0 to |s|
      invariant Valid(s[..i])
      invariant n + LeadingOnes(s[..i]) <= i && result[..n] == MinLE(Value58(s[..i]))
    {
      var carry := FindDigit(s[i]);
      if carry < 0 {
        return false, 0;
      }
      OneMoreDigit(s, i, result[..n]);
      n := MulAddInPlace(result, n, carry);
    }
    assert s[..|s|] == s;
    ok := true;
  }

  lemma OneMoreDigit(s: string, i: nat, before: seq<byte>)
    requires i < |s| && Valid(s[..i]) && IsDigit(s[i])
    requires before == MinLE(Value58(s[..i])) && |before| + LeadingOnes(s[..i]) <= i
    ensures Valid(s[..i + 1])
    ensures var after := MulAdd(before, DigitOf(s[i]));
      after == MinLE(Value58(s[..i + 1])) && |after| + LeadingOnes(s[..i + 1]) <= i + 1
  {
    var t := s[..i + 1];
    assert t == s[..i] + [s[i]] && t[..i] == s[..i] && t[..i + 1] == t;
    RoomForOneMore(t, i, before);
  }

  /** One zero byte is appended per leading '1'. */
  method AppendZeros(s: string, result: array<byte>, low: nat) returns (n: nat)
    requires low + LeadingOnes(s) <= result.Length
    modifies result
    ensures n == low + LeadingOnes(s) && result[..n] == old(result[..low]) + Zeros(LeadingOnes(s))
  {
    n := low;
    var k := 0;
    while k < |s| && s[k] == '1'
      invariant 0 <= k <= |s| && k + LeadingOnes(s[k..]) == LeadingOnes(s)
      invariant n == low + k && result[..n] == old(result[..low]) + Zeros(k)
    {
      assert s[k..][1..] == s[k + 1..];
      result[n] := 0;
      n := n + 1;
      k := k + 1;
    }
  }

  /** base58Decode: nil for a foreign character or fewer than four bytes, otherwise all but the last four bytes. */
  method Base58Decode(s: string) returns (r: Option<seq<byte>>)
    ensures r ==
      if !Valid(s) || |FullDecode(s)| < 4 then None
      else Some(FullDecode(s)[..|FullDecode(s)| - 4])
  {
    var result := new byte[|s|];
    var ok, n := ConvertDigits(s, result);
    if !ok {
      return None;
    }
    n := AppendZeros(s, result, n);
    ReverseBytes(result, n);
    if n < 4 {
      return None;
    }
    assert result[..n][..n - 4] == result[..n - 4];
    return Some(result[..n - 4]);
  }

  /** The search through the alphabet; -1 if the character is not in it. */
  method FindDigit(c: char) returns (carry: int)
    ensures if IsDigit(c) then carry == DigitOf(c) else carry == -1
  {
    carry := -1;
    AlphabetOrder(0);
    for i := 0 to |ALPHABET|
      invariant carry == -1 && forall k :: 0 <= k < i ==> CharOf(k) != c
    {
      AlphabetOrder(i);
      if ALPHABET[i] == c {
        DigitOfChar(i);
        return i;
      }
    }
  }

  // ----- the specification encoder, and that it inverts the decoder -----

  function Digits58(v: nat): string {
    if v == 0 then "" else Digits58(v / 58) + [CharOf(v % 58)]
  }

  function Ones(n: nat): (s: string)
    ensures |s| == n && forall i :: 0 <= i < n ==> s[i] == '1'
  {
    seq(n, _ => '1')
  }

  function LeadingZeros(b: seq<byte>): (n: nat)
    ensures n <= |b|
  {
    if b == [] || b[0] != 0 then 0 else 1 + LeadingZeros(b[1..])
  }

  /** base58 encoding: one '1' per leading zero byte, then the digits of the big-endian number. */
  function Base58Encode(b: seq<byte>): string {
    Ones(LeadingZeros(b)) + Digits58(LEVal(Rev(b)))
  }

  lemma ValueAppend(s: string, c: char)
    requires Valid(s) && IsDigit(c)
    ensures Valid(s + [c]) && Value58(s + [c]) == Value58(s) * 58 + DigitOf(c)
  {
    assert (s + [c])[..|s|] == s;
  }

  lemma {:induction false} DigitsValue(v: nat)
    ensures Valid(Digits58(v)) && Value58(Digits58(v)) == v
    ensures LeadingOnes(Digits58(v)) == 0
  {
    if v > 0 {
      DigitsValue(v / 58);
      DigitOfChar(v % 58);
      ValueAppend(Digits58(v / 58), CharOf(v % 58));
      LeadingOnesSnoc(Digits58(v / 58), CharOf(v % 58));
      if v / 58 == 0 {
        assert CharOf(v % 58) != '1';
      } else {
        DigitsNonEmpty(v / 58);
      }
    }
  }

  lemma DigitsNonEmpty(v: nat)
    requires v > 0
    ensures Digits58(v) != ""
  {
  }

  /** A digit string without a leading '1' is the one its value has. */
  lemma {:induction false} DigitsUnique(s: string)
    requires Valid(s) && LeadingOnes(s) == 0
    ensures Digits58(Value58(s)) == s
    ensures s != "" ==> Value58(s) > 0
  {
    if s != "" {
      var init, c := s[..|s| - 1], s[|s| - 1];
      assert s == init + [c];
      LeadingOnesSnoc(init, c);
      if init == "" {
        assert Value58(s) == DigitOf(c);
        assert DigitOf(c) == 0 ==> c == '1';
        assert Digits58(DigitOf(c)) == Digits58(0) + [CharOf(DigitOf(c))];
      } else {
        assert LeadingOnes(init) == 0;
        DigitsUnique(init);
        assert Value58(s) / 58 == Value58(init) && Value58(s) % 58 == DigitOf(c);
      }
    }
  }

  lemma {:induction false} OnesCount(n: nat, t: string)
    requires LeadingOnes(t) == 0
    ensures LeadingOnes(Ones(n) + t) == n
  {
    if n > 0 {
      assert (Ones(n) + t)[1..] == Ones(n - 1) + t;
      OnesCount(n - 1, t);
    } else {
      assert Ones(0) + t == t;
    }
  }

  lemma {:induction false} OnesValue(n: nat)
    ensures Valid(Ones(n)) && Value58(Ones(n)) == 0
  {
    if n > 0 {
      OnesValue(n - 1);
      assert Ones(n)[..n - 1] == Ones(n - 1);
      assert DigitOf('1') == 0;
    }
  }

  lemma {:induction false} OnesPrefix(n: nat, t: string)
    requires Valid(t)
    ensures Valid(Ones(n) + t) && Value58(Ones(n) + t) == Value58(t)
  {
    OnesValue(n);
    if t == "" {
      assert Ones(n) + t == Ones(n);
    } else {
      var init, last := t[..|t| - 1], t[|t| - 1];
      OnesPrefix(n, init);
      assert Ones(n) + t == (Ones(n) + init) + [last] && t == init + [last];
      ValueAppend(Ones(n) + init, last);
      ValueAppend(init, last);
    }
  }

  lemma {:induction false} LeadingOnesAre(s: string)
    ensures var n := LeadingOnes(s); (forall i :: 0 <= i < n ==> s[i] == '1') && (n < |s| ==> s[n] != '1')
  {
    if s != "" && s[0] == '1' {
      LeadingOnesAre(s[1..]);
      assert forall i :: 1 <= i < |s| ==> s[i] == s[1..][i - 1];
    }
  }

  lemma SplitOnes(s: string)
    ensures var n := LeadingOnes(s); s == Ones(n) + s[n..] && LeadingOnes(s[n..]) == 0
  {
    LeadingOnesAre(s);
  }

  lemma {:induction false} ZerosPrefix(n: nat, b: seq<byte>)
    requires b == [] || b[0] != 0
    ensures LeadingZeros(Zeros(n) + b) == n
  {
    if n > 0 {
      assert (Zeros(n) + b)[1..] == Zeros(n - 1) + b;
      ZerosPrefix(n - 1, b);
    } else {
      assert Zeros(0) + b == b;
    }
  }

  lemma {:induction false} TopZerosAddNothing(b: seq<byte>, n: nat)
    ensures LEVal(b + Zeros(n)) == LEVal(b)
  {
    if b != [] {
      assert (b + Zeros(n))[1..] == b[1..] + Zeros(n);
      TopZerosAddNothing(b[1..], n);
    } else if n > 0 {
      assert (b + Zeros(n))[1..] == Zeros(n - 1);
      TopZerosAddNothing([], n - 1);
      assert [] + Zeros(n - 1) == Zeros(n - 1);
    } else {
      assert b + Zeros(n) == [];
    }
  }

  lemma RevParts(b: seq<byte>, n: nat)
    ensures Rev(b + Zeros(n)) == Zeros(n) + Rev(b)
    ensures Rev(Zeros(n) + Rev(b)) == b + Zeros(n)
  {
  }

  /** Every string of base-58 digits is the encoding of what it decodes to. */
  lemma EncodeInvertsDecode(s: string)
    requires Valid(s)
    ensures Base58Encode(FullDecode(s)) == s
  {
    var n, v := LeadingOnes(s), Value58(s);
    var low := MinLE(v);
    MinLEValue(v);
    SplitOnes(s);
    var t := s[n..];
    OnesPrefix(n, t);
    OnesCount(n, t);
    DigitsUnique(t);
    RevParts(low, n);
    TopZerosAddNothing(low, n);
    assert low != [] ==> Rev(low)[0] == low[|low| - 1];
    ZerosPrefix(n, Rev(low));
  }

  lemma {:induction false} LeadingZerosAre(b: seq<byte>)
    ensures var n := LeadingZeros(b); (forall i :: 0 <= i < n ==> b[i] == 0) && (n < |b| ==> b[n] != 0)
  {
    if b != [] && b[0] == 0 {
      LeadingZerosAre(b[1..]);
      assert forall i :: 1 <= i < |b| ==> b[i] == b[1..][i - 1];
    }
  }

  lemma SplitZeros(b: seq<byte>)
    ensures var n := LeadingZeros(b); b == Zeros(n) + b[n..] && (b[n..] == [] || b[n] != 0)
  {
    LeadingZerosAre(b);
  }

  /** Every byte string is what its encoding decodes to. */
  lemma DecodeInvertsEncode(b: seq<byte>)
    ensures Valid(Base58Encode(b)) && FullDecode(Base58Encode(b)) == b
  {
    var n, v := LeadingZeros(b), LEVal(Rev(b));
    var rest := b[n..];
    SplitZeros(b);
    DigitsValue(v);
    OnesPrefix(n, Digits58(v));
    OnesCount(n, Digits58(v));
    var low := Rev(rest);
    assert low != [] ==> low[|low| - 1] == rest[0];
    RevParts(low, n);
    assert Rev(low) == rest;
    assert b == Zeros(n) + Rev(low);
    TopZerosAddNothing(low, n);
    MinLEUnique(low);
  }

  // ----- payout scripts -----

  function PoolScript(): seq<byte> {
    [0x6a, 0x04, 0x70, 0x6f, 0x6f, 0x6c]
  }

  /** Pay-to-public-key-hash. */
  function P2PKH(hash160: seq<byte>): seq<byte> {
    [0x76, 0xa9, 0x14] + hash160 + [0x88, 0xac]
  }

  /** buildPayoutScript as a function of the address. */
  function PayoutScript(address: string): (script: seq<byte>)
    ensures |script| == 6 || |script| == 25
  {
    if !Valid(address) || |FullDecode(address)| < 25 then PoolScript()
    else P2PKH(FullDecode(address)[1..21])
  }

  method BuildPayoutScript(address: string) returns (script: seq<byte>)
    ensures script == PayoutScript(address)
  {
    var decoded := Base58Decode(address);
    if decoded.None? || |decoded.value| < 21 {
      return [0x6a, 0x04, 0x70, 0x6f, 0x6f, 0x6c];
    }
    var hash160 := decoded.value[1..21];
    script := [0x76, 0xa9, 0x14];
    script := script + hash160;
    script := script + [0x88, 0xac];
  }

  /** An address that encodes version, key hash and checksum is paid by the script for exactly that key hash;
      the checksum is not looked at. */
  lemma AddressPaysItsKeyHash(version: byte, hash160: seq<byte>, checksum: seq<byte>)
    requires |hash160| == 20 && |checksum| == 4
    ensures PayoutScript(Base58Encode([version] + hash160 + checksum)) == P2PKH(hash160)
  {
    var b := [version] + hash160 + checksum;
    DecodeInvertsEncode(b);
    assert b[1..21] == hash160;
  }
}
