/** Hexadecimal text: encoding is lower case, decoding takes either case (encoding/hex). */
module Hex {
  import opened Options
  import opened Bytes

  function HexChar(n: int): char
    requires 0 <= n < 16
  {
    if n < 10 then '0' + n as char else 'a' + (n - 10) as char
  }

  function HexDigit(c: char): Option<int> {
    if '0' <= c <= '9' then Some(c as int - '0' as int)
    else if 'a' <= c <= 'f' then Some(c as int - 'a' as int + 10)
    else if 'A' <= c <= 'F' then Some(c as int - 'A' as int + 10)
    else None
  }

  function HexEncode(b: seq<byte>): (s: string)
    ensures |s| == 2 * |b|
  {
    if b == [] then "" else [HexChar(b[0] / 16), HexChar(b[0] % 16)] + HexEncode(b[1..])
  }

  /** None for an odd length or a foreign character. */
  function HexDecode(s: string): Option<seq<byte>> {
    if s == "" then Some([])
    else if |s| == 1 then None
    else
      var hi, lo, rest := HexDigit(s[0]), HexDigit(s[1]), HexDecode(s[2..]);
      if hi.None? || lo.None? || rest.None? then None
      else if 0 <= hi.value < 16 && 0 <= lo.value < 16 then Some([hi.value * 16 + lo.value] + rest.value)
      else None
  }

  lemma HexDigitsInOrder(n: int)
    requires 0 <= n < 16
    ensures HexChar(n) == "0123456789abcdef"[n]
  {
  }

  lemma HexDigitOfChar(n: int)
    requires 0 <= n < 16
    ensures HexDigit(HexChar(n)) == Some(n)
  {
  }

  lemma {:induction false} HexRoundTrip(b: seq<byte>)
    ensures HexDecode(HexEncode(b)) == Some(b)
  {
    if b != [] {
      HexRoundTrip(b[1..]);
      assert HexEncode(b)[2..] == HexEncode(b[1..]);
      var n: int := b[0];
      HexDigitOfChar(n / 16);
      HexDigitOfChar(n % 16);
      assert HexEncode(b)[0] == HexChar(n / 16) && HexEncode(b)[1] == HexChar(n % 16);
      assert n / 16 * 16 + n % 16 == n;
      assert b == [b[0]] + b[1..];
    }
  }

  lemma HexInjective(a: seq<byte>, b: seq<byte>)
    requires HexEncode(a) == HexEncode(b)
    ensures a == b
  {
    HexRoundTrip(a);
    HexRoundTrip(b);
  }

  /** Upper-case letters as lower-case, everything else unchanged. */
  function Lower(s: string): (t: string)
    ensures |t| == |s|
  {
    seq(|s|, i requires 0 <= i < |s| => if 'A' <= s[i] <= 'Z' then s[i] + ('a' - 'A') else s[i])
  }

  /** Decoding ignores case, so differently written submissions can carry the same work. */
  lemma {:induction false} HexIgnoresCase(s: string)
    ensures HexDecode(Lower(s)) == HexDecode(s)
  {
    if |s| >= 2 {
      HexIgnoresCase(s[2..]);
      assert Lower(s)[2..] == Lower(s[2..]);
    }
  }

  lemma CharOfHexDigit(c: char)
    requires HexDigit(c).Some?
    ensures 0 <= HexDigit(c).value < 16 && Lower([c]) == [HexChar(HexDigit(c).value)]
  {
  }

  /** Encoding what was decoded gives the text back in lower case. */
  lemma {:induction false} EncodeDecodedIsLower(s: string)
    requires HexDecode(s).Some?
    ensures HexEncode(HexDecode(s).value) == Lower(s)
  {
    if s != "" {
      EncodeDecodedIsLower(s[2..]);
      CharOfHexDigit(s[0]);
      CharOfHexDigit(s[1]);
      var b := HexDecode(s).value;
      var hi, lo := HexDigit(s[0]).value, HexDigit(s[1]).value;
      assert b == [hi * 16 + lo] + HexDecode(s[2..]).value;
      assert (hi * 16 + lo) / 16 == hi && (hi * 16 + lo) % 16 == lo;
      assert HexEncode(b) == [HexChar(hi), HexChar(lo)] + HexEncode(b[1..]);
      assert Lower(s) == Lower([s[0]]) + Lower([s[1]]) + Lower(s[2..]);
    }
  }

  /** Two texts decode to the same bytes exactly if they differ in case only. */
  lemma SameBytesIffSameLower(s: string, t: string)
    requires HexDecode(s).Some? && HexDecode(t).Some?
    ensures HexDecode(s) == HexDecode(t) <==> Lower(s) == Lower(t)
  {
    EncodeDecodedIsLower(s);
    EncodeDecodedIsLower(t);
    HexIgnoresCase(s);
    HexIgnoresCase(t);
  }

  // ----- 32-byte hashes -----

  type Digest = d: seq<byte> | |d| == 32 witness seq(32, _ => 0)

  /** HashToString: the display order is reversed. */
  method HashToString(h: Digest) returns (s: string)
    ensures s == DisplayHash(h)
  {
    var b := new byte[32](i requires 0 <= i < 32 => h[i]);
    assert b[..] == h && b[..32] == b[..];
    ReverseBytes(b, 32);
    assert b[..] == b[..32];
    s := HexEncode(b[..]);
  }

  function DisplayHash(h: Digest): string {
    HexEncode(Rev(h))
  }

  function HexToHash32(s: string): Option<Digest> {
    var b := HexDecode(s);
    if b.None? || |b.value| != 32 then None else Some(b.value)
  }

  function HexToHash32Rev(s: string): Option<Digest> {
    var h := HexToHash32(s);
    if h.None? then None else Some(Rev(h.value))
  }

  /** Reading a displayed hash gives the internal bytes back, and displaying what was read gives the text in lower case. */
  lemma DisplayRoundTrip(h: Digest)
    ensures HexToHash32Rev(DisplayHash(h)) == Some(h)
  {
    HexRoundTrip(Rev(h));
    RevRev(h);
  }

  lemma DisplayInjective(g: Digest, h: Digest)
    requires DisplayHash(g) == DisplayHash(h)
    ensures g == h
  {
    HexInjective(Rev(g), Rev(h));
    RevRev(g);
    RevRev(h);
  }
}
