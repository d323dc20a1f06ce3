/** Bytes, little-endian numbers and reversal in place. */
module Bytes {

  type byte = x: int | 0 <= x < 256

  function Pow256(n: nat): (p: nat)
    ensures p > 0
  {
    if n == 0 then 1 else 256 * Pow256(n - 1)
  }

  /** The value of a little-endian byte string. */
  function LEVal(s: seq<byte>): nat {
    if s == [] then 0 else s[0] + 256 * LEVal(s[1..])
  }

  /** The low `n` bytes of `v`, least significant first. */
  function LE(v: nat, n: nat): (s: seq<byte>)
    ensures |s| == n
  {
    if n == 0 then [] else [v % 256] + LE(v / 256, n - 1)
  }

  /** Little-endian with no redundant top byte. */
  function MinLE(v: nat): seq<byte> {
    if v == 0 then [] else [v % 256] + MinLE(v / 256)
  }

  predicate NoTopZero(s: seq<byte>) {
    s == [] || s[|s| - 1] != 0
  }

  function Rev<T>(s: seq<T>): (r: seq<T>)
    ensures |r| == |s|
    ensures forall i :: 0 <= i < |s| ==> r[i] == s[|s| - 1 - i]
  {
    if s == [] then [] else Rev(s[1..]) + [s[0]]
  }

  /** A little-endian field that is wide enough gives the number back. */
  lemma {:induction false} LERoundTrip(v: nat, n: nat)
    requires v < Pow256(n)
    ensures LEVal(LE(v, n)) == v
  {
    if n > 0 {
      assert v / 256 < Pow256(n - 1);
      LERoundTrip(v / 256, n - 1);
    }
  }

  lemma {:induction false} LEValBound(s: seq<byte>)
    ensures LEVal(s) < Pow256(|s|)
  {
    if s != [] {
      LEValBound(s[1..]);
    }
  }

  /** Every byte string is the little-endian field of its value. */
  lemma {:induction false} LEOfValue(s: seq<byte>)
    ensures LE(LEVal(s), |s|) == s
  {
    if s != [] {
      LEOfValue(s[1..]);
      assert LEVal(s) % 256 == s[0] && LEVal(s) / 256 == LEVal(s[1..]);
    }
  }

  lemma {:induction false} MinLEValue(v: nat)
    ensures LEVal(MinLE(v)) == v && NoTopZero(MinLE(v))
    ensures v > 0 ==> MinLE(v) != []
  {
    if v > 0 {
      MinLEValue(v / 256);
      if v / 256 == 0 {
        assert MinLE(v) == [v % 256] && v % 256 == v;
      } else {
        var t := MinLE(v / 256);
        assert MinLE(v)[|t|] == t[|t| - 1];
      }
    }
  }

  /** Without a redundant top byte, the little-endian form of a number is unique. */
  lemma {:induction false} MinLEUnique(s: seq<byte>)
    requires NoTopZero(s)
    ensures s == MinLE(LEVal(s))
  {
    if s != [] {
      var t := s[1..];
      assert NoTopZero(t) by {
        assert t != [] ==> t[|t| - 1] == s[|s| - 1];
      }
      MinLEUnique(t);
      assert LEVal(s) % 256 == s[0] && LEVal(s) / 256 == LEVal(t);
      assert t == [] ==> s[0] != 0;
      assert s == [s[0]] + t;
    }
  }

  lemma RevRev<T>(s: seq<T>)
    ensures Rev(Rev(s)) == s
  {
  }

  /** The swap loop of ReverseBytes, on the first `n` cells. */
  method ReverseBytes(b: array<byte>, n: nat)
    requires n <= b.Length
    modifies b
    ensures b[..n] == Rev(old(b[..n]))
    ensures forall k :: n <= k < b.Length ==> b[k] == old(b[k])
  {
    var i, j := 0, n - 1;
    while i < j
      invariant 0 <= i <= j + 1 && i + j == n - 1
      invariant forall k :: 0 <= k < i ==> b[k] == old(b[n - 1 - k]) && b[n - 1 - k] == old(b[k])
      invariant forall k :: i <= k <= j ==> b[k] == old(b[k])
      invariant forall k :: n <= k < b.Length ==> b[k] == old(b[k])
    {
      b[i], b[j] := b[j], b[i];
      i, j := i + 1, j - 1;
    }
    forall k | 0 <= k < n ensures b[k] == Rev(old(b[..n]))[k] {
      if k < i {
        assert b[k] == old(b[n - 1 - k]);
      } else if k > j {
        assert b[n - 1 - (n - 1 - k)] == old(b[n - 1 - k]);
      }
    }
  }
}
