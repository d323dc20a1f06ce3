/** Finite sums over sets, in integers (satoshi) and in reals (share weights). */
module Sums {

  ghost function Pick<K>(s: set<K>): (x: K)
    requires s != {}
    ensures x in s
  {
    var x :| x in s; x
  }

  /** The sum of `f` over `s`; the lemmas below show that the picking order is irrelevant. */
  ghost function Sum<K>(s: set<K>, f: K -> int): int
  {
    if s == {} then 0 else var x := Pick(s); f(x) + Sum(s - {x}, f)
  }

  ghost function RSum<K>(s: set<K>, f: K -> real): real
  {
    if s == {} then 0.0 else var x := Pick(s); f(x) + RSum(s - {x}, f)
  }

  lemma {:induction false} SumRemove<K>(s: set<K>, x: K, f: K -> int)
    requires x in s
    ensures Sum(s, f) == f(x) + Sum(s - {x}, f)
  {
    var y := Pick(s);
    if y != x {
      SumRemove(s - {y}, x, f);
      SumRemove(s - {x}, y, f);
      assert s - {y} - {x} == s - {x} - {y};
    }
  }

  lemma SumInsert<K>(s: set<K>, x: K, f: K -> int)
    requires x !in s
    ensures Sum(s + {x}, f) == f(x) + Sum(s, f)
  {
    SumRemove(s + {x}, x, f);
    assert s + {x} - {x} == s;
  }

  lemma {:induction false} SumCongruence<K>(s: set<K>, f: K -> int, g: K -> int)
    requires forall x :: x in s ==> f(x) == g(x)
    ensures Sum(s, f) == Sum(s, g)
  {
    if s != {} {
      SumCongruence(s - {Pick(s)}, f, g);
    }
  }

  lemma {:induction false} SumPlus<K>(s: set<K>, h: K -> int, f: K -> int, g: K -> int)
    requires forall x :: x in s ==> h(x) == f(x) + g(x)
    ensures Sum(s, h) == Sum(s, f) + Sum(s, g)
  {
    if s != {} {
      SumPlus(s - {Pick(s)}, h, f, g);
    }
  }

  lemma {:induction false} SumLe<K>(s: set<K>, f: K -> int, g: K -> int)
    requires forall x :: x in s ==> f(x) <= g(x)
    ensures Sum(s, f) <= Sum(s, g)
  {
    if s != {} {
      SumLe(s - {Pick(s)}, f, g);
    }
  }

  /** Elements where `f` is zero can be added to the set or taken away. */
  lemma {:induction false} SumExtend<K>(s: set<K>, t: set<K>, f: K -> int)
    requires s <= t
    requires forall x :: x in t - s ==> f(x) == 0
    ensures Sum(s, f) == Sum(t, f)
    decreases t - s
  {
    if t - s == {} {
      assert forall x :: x in t ==> x !in s ==> x in t - s;
      assert s == t;
    } else {
      var x := Pick(t - s);
      SumRemove(t, x, f);
      SumExtend(s, t - {x}, f);
    }
  }

  /** Changing the summand at one element changes the sum by the difference. */
  lemma SumChangeOne<K>(s: set<K>, x: K, f: K -> int, g: K -> int)
    requires x in s
    requires forall y :: y in s && y != x ==> f(y) == g(y)
    ensures Sum(s, g) == Sum(s, f) - f(x) + g(x)
  {
    SumRemove(s, x, f);
    SumRemove(s, x, g);
    SumCongruence(s - {x}, f, g);
  }

  lemma {:induction false} RSumRemove<K>(s: set<K>, x: K, f: K -> real)
    requires x in s
    ensures RSum(s, f) == f(x) + RSum(s - {x}, f)
  {
    var y := Pick(s);
    if y != x {
      RSumRemove(s - {y}, x, f);
      RSumRemove(s - {x}, y, f);
      assert s - {y} - {x} == s - {x} - {y};
    }
  }

  lemma {:induction false} RSumPlus<K>(s: set<K>, h: K -> real, f: K -> real, g: K -> real)
    requires forall x :: x in s ==> h(x) == f(x) + g(x)
    ensures RSum(s, h) == RSum(s, f) + RSum(s, g)
  {
    if s != {} {
      RSumPlus(s - {Pick(s)}, h, f, g);
    }
  }

  lemma {:induction false} RSumScale<K>(s: set<K>, c: real, h: K -> real, f: K -> real)
    requires forall x :: x in s ==> h(x) == c * f(x)
    ensures RSum(s, h) == c * RSum(s, f)
  {
    if s != {} {
      RSumScale(s - {Pick(s)}, c, h, f);
    }
  }

  lemma {:induction false} RSumOfInts<K>(s: set<K>, h: K -> real, f: K -> int)
    requires forall x :: x in s ==> h(x) == f(x) as real
    ensures RSum(s, h) == Sum(s, f) as real
  {
    if s != {} {
      RSumOfInts(s - {Pick(s)}, h, f);
    }
  }

  /** Values in [0, 1) sum to less than the number of summands. */
  lemma {:induction false} RSumFractions<K>(s: set<K>, f: K -> real)
    requires forall x :: x in s ==> 0.0 <= f(x) < 1.0
    ensures 0.0 <= RSum(s, f) <= |s| as real
    ensures s != {} ==> RSum(s, f) < |s| as real
  {
    if s != {} {
      RSumFractions(s - {Pick(s)}, f);
    }
  }

  lemma {:induction false} RSumPositive<K>(s: set<K>, f: K -> real)
    requires forall x :: x in s ==> f(x) > 0.0
    ensures RSum(s, f) >= 0.0
    ensures s != {} ==> RSum(s, f) > 0.0
  {
    if s != {} {
      RSumPositive(s - {Pick(s)}, f);
    }
  }

  /** A correction that sums to zero does not change how two sums compare. */
  lemma {:induction false} RSumTilted<K>(s: set<K>, f: K -> real, g: K -> real, tilt: K -> real)
    requires forall x :: x in s ==> g(x) >= f(x) + tilt(x)
    ensures RSum(s, g) >= RSum(s, f) + RSum(s, tilt)
  {
    if s != {} {
      RSumTilted(s - {Pick(s)}, f, g, tilt);
    }
  }
}
