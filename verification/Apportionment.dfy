/** Largest-remainder apportionment of a reward over weighted workers
    (allocateByWeight in internal/accounting/payout.go), in exact arithmetic. */
module Apportionment {
  import opened Reals
  import opened Sums

  // ----- the order the remainder is handed out in -----

  /** Go's `<` on strings. */
  predicate StringLess(a: string, b: string) {
    b != "" && (a == "" || a[0] < b[0] || (a[0] == b[0] && StringLess(a[1..], b[1..])))
  }

  datatype Part = Part(worker: string, frac: real)

  /** The comparator given to sort.Slice: larger fraction first, then the smaller worker name. */
  predicate Before(a: Part, b: Part) {
    if a.frac == b.frac then StringLess(a.worker, b.worker) else a.frac > b.frac
  }

  lemma {:induction false} StringLessTotal(a: string, b: string)
    ensures StringLess(a, b) || StringLess(b, a) || a == b
    ensures !(StringLess(a, b) && StringLess(b, a))
    ensures !StringLess(a, a)
  {
    if a != "" {
      StringLessTotal(a[1..], a[1..]);
    }
    if a != "" && b != "" && a[0] == b[0] {
      StringLessTotal(a[1..], b[1..]);
      if a[1..] == b[1..] {
        assert a == [a[0]] + a[1..] == b;
      }
    }
  }

  /** The first difference decides, and a proper prefix comes first. */
  lemma {:induction false} FirstDifferenceDecides(a: string, b: string, k: nat)
    requires k <= |a| && k <= |b| && a[..k] == b[..k] && (k == |a| < |b| || (k < |a| && k < |b| && a[k] < b[k]))
    ensures StringLess(a, b)
  {
    if k > 0 {
      assert a[0] == a[..k][0] == b[..k][0] == b[0];
      assert a[1..][..k - 1] == a[..k][1..] == b[..k][1..] == b[1..][..k - 1];
      FirstDifferenceDecides(a[1..], b[1..], k - 1);
    }
  }

  lemma {:induction false} StringLessTransitive(a: string, b: string, c: string)
    requires StringLess(a, b) && StringLess(b, c)
    ensures StringLess(a, c)
  {
    if a != "" && a[0] == b[0] == c[0] {
      StringLessTransitive(a[1..], b[1..], c[1..]);
    }
  }

  /** The comparator is a strict total order on parts of different workers. */
  lemma BeforeIsStrictTotalOrder(a: Part, b: Part, c: Part)
    ensures !Before(a, a)
    ensures Before(a, b) ==> !Before(b, a)
    ensures a.worker != b.worker ==> Before(a, b) || Before(b, a)
    ensures Before(a, b) && Before(b, c) ==> Before(a, c)
  {
    StringLessTotal(a.worker, a.worker);
    StringLessTotal(a.worker, b.worker);
    if Before(a, b) && Before(b, c) && StringLess(a.worker, b.worker) && StringLess(b.worker, c.worker) {
      StringLessTransitive(a.worker, b.worker, c.worker);
    }
  }

  // ----- rank: how many workers come earlier, whatever order a map is walked in -----

  ghost function Earlier(fracs: map<string, real>, p: Part): set<string> {
    set v | v in fracs && Before(Part(v, fracs[v]), p)
  }

  ghost function Rank(fracs: map<string, real>, w: string): nat
    requires w in fracs
  {
    |Earlier(fracs, Part(w, fracs[w]))|
  }

  lemma SubsetSize<T>(a: set<T>, b: set<T>)
    requires a <= b
    ensures |a| <= |b|
    ensures |a| == |b| ==> a == b
  {
    assert b == a + (b - a);
    assert |b| == |a| + |b - a|;
  }

  lemma RankMonotone(fracs: map<string, real>, v: string, w: string)
    requires v in fracs && w in fracs && Before(Part(v, fracs[v]), Part(w, fracs[w]))
    ensures Rank(fracs, v) < Rank(fracs, w)
  {
    var pv, pw := Part(v, fracs[v]), Part(w, fracs[w]);
    forall u | u in Earlier(fracs, pv) ensures u in Earlier(fracs, pw) {
      BeforeIsStrictTotalOrder(Part(u, fracs[u]), pv, pw);
    }
    BeforeIsStrictTotalOrder(pv, pw, pw);
    assert v in Earlier(fracs, pw) && v !in Earlier(fracs, pv);
    SubsetSize(Earlier(fracs, pv), Earlier(fracs, pw));
  }

  /** `parts` lists every worker of `fracs` once. */
  ghost predicate Lists(parts: seq<Part>, fracs: map<string, real>) {
    && (forall i {:trigger parts[i]} :: 0 <= i < |parts| ==> parts[i].worker in fracs && parts[i].frac == fracs[parts[i].worker])
    && (forall i, j :: 0 <= i < j < |parts| ==> parts[i].worker != parts[j].worker)
    && |parts| == |fracs.Keys|
  }

  ghost predicate SortedParts(parts: seq<Part>) {
    forall i, j :: 0 <= i < j < |parts| ==> Before(parts[i], parts[j])
  }

  ghost function Names(parts: seq<Part>, n: nat): set<string>
    requires n <= |parts|
  {
    set i | 0 <= i < n :: parts[i].worker
  }

  lemma {:induction false} NamesSize(parts: seq<Part>, n: nat)
    requires n <= |parts|
    requires forall i, j :: 0 <= i < j < |parts| ==> parts[i].worker != parts[j].worker
    ensures |Names(parts, n)| == n
  {
    if n == 0 {
      assert Names(parts, 0) == {};
    } else {
      NamesSize(parts, n - 1);
      assert Names(parts, n) == Names(parts, n - 1) + {parts[n - 1].worker};
    }
  }

  lemma PositionOf(parts: seq<Part>, fracs: map<string, real>, w: string) returns (k: nat)
    requires Lists(parts, fracs) && w in fracs
    ensures k < |parts| && parts[k] == Part(w, fracs[w])
  {
    NamesSize(parts, |parts|);
    SubsetSize(Names(parts, |parts|), fracs.Keys);
    assert w in Names(parts, |parts|);
    k :| 0 <= k < |parts| && parts[k].worker == w;
  }

  /** The sorted slice is unique: position k holds the worker of rank k. */
  lemma SortedPositionIsRank(parts: seq<Part>, fracs: map<string, real>, k: nat)
    requires Lists(parts, fracs) && SortedParts(parts) && k < |parts|
    ensures Rank(fracs, parts[k].worker) == k
  {
    var e := Earlier(fracs, parts[k]);
    forall v | v in e ensures v in Names(parts, k) {
      var i := PositionOf(parts, fracs, v);
      if i > k {
        BeforeIsStrictTotalOrder(parts[k], parts[i], parts[k]);
      } else if i == k {
        BeforeIsStrictTotalOrder(parts[k], parts[k], parts[k]);
      }
    }
    assert e == Names(parts, k);
    NamesSize(parts, k);
  }

  /** sort.Slice on `parts`; the result is the only sorted listing, see SortedPositionIsRank. */
  method SortParts(parts: seq<Part>, ghost fracs: map<string, real>) returns (sorted: seq<Part>)
    requires Lists(parts, fracs)
    ensures Lists(sorted, fracs) && SortedParts(sorted)
    ensures multiset(sorted) == multiset(parts)
  {
    sorted := [];
    for n := 0 to |parts|
      invariant multiset(sorted) == multiset(parts[..n])
      invariant SortedParts(sorted)
    {
      forall i | 0 <= i < |sorted| ensures sorted[i].worker != parts[n].worker {
        assert sorted[i] in multiset(sorted);
        assert sorted[i] in parts[..n];
      }
      sorted := InsertPart(sorted, parts[n]);
      assert parts[..n + 1] == parts[..n] + [parts[n]];
    }
    assert parts[..|parts|] == parts;
    SortedLists(parts, sorted, fracs);
  }

  method InsertPart(sorted: seq<Part>, p: Part) returns (r: seq<Part>)
    requires SortedParts(sorted)
    requires forall i :: 0 <= i < |sorted| ==> sorted[i].worker != p.worker
    ensures SortedParts(r)
    ensures multiset(r) == multiset(sorted) + multiset{p}
  {
    var k := 0;
    while k < |sorted| && Before(sorted[k], p)
      invariant k <= |sorted|
      invariant forall i :: 0 <= i < k ==> Before(sorted[i], p)
    {
      k := k + 1;
    }
    forall j | k <= j < |sorted| ensures Before(p, sorted[j]) {
      BeforeIsStrictTotalOrder(sorted[k], p, p);
      BeforeIsStrictTotalOrder(p, sorted[k], sorted[j]);
    }
    assert sorted == sorted[..k] + sorted[k..];
    r := sorted[..k] + [p] + sorted[k..];
  }

  lemma SortedLists(parts: seq<Part>, sorted: seq<Part>, fracs: map<string, real>)
    requires Lists(parts, fracs) && SortedParts(sorted) && multiset(sorted) == multiset(parts)
    ensures Lists(sorted, fracs)
  {
    forall i | 0 <= i < |sorted| ensures sorted[i] in parts {
      assert sorted[i] in multiset(sorted);
    }
    assert |sorted| == |multiset(sorted)| == |parts|;
    forall i, j | 0 <= i < j < |sorted| ensures sorted[i].worker != sorted[j].worker {
      assert sorted[i] in parts && sorted[j] in parts;
      BeforeIsStrictTotalOrder(sorted[i], sorted[i], sorted[i]);
      assert Before(sorted[i], sorted[j]);
    }
  }

  lemma NamesNext(parts: seq<Part>, n: nat)
    requires n < |parts|
    requires forall i, j :: 0 <= i < j < |parts| ==> parts[i].worker != parts[j].worker
    ensures parts[n].worker !in Names(parts, n)
    ensures Names(parts, n + 1) == Names(parts, n) + {parts[n].worker}
  {
  }

  // ----- rounding down and handing out the rest, whatever the exact shares are -----

  ghost function At(m: map<string, int>): string -> int {
    w => if w in m then m[w] else 0
  }

  ghost function RAt(m: map<string, real>): string -> real {
    w => if w in m then m[w] else 0.0
  }

  /** The sum of all amounts of a map. */
  ghost function Amounts(m: map<string, int>): int {
    Sum(m.Keys, At(m))
  }

  ghost function Floors(exact: map<string, real>): map<string, int> {
    map w | w in exact :: exact[w].Floor
  }

  ghost function Fracs(exact: map<string, real>): map<string, real> {
    map w | w in exact :: exact[w] - exact[w].Floor as real
  }

  /** The satoshi left over once every share is rounded down; the code stops when this is not positive. */
  ghost function Leftover(total: int, exact: map<string, real>): nat {
    if total > Amounts(Floors(exact)) then total - Amounts(Floors(exact)) else 0
  }

  /** The position in the sorted slice that receives the i-th leftover satoshi. */
  function Slot(i: nat, n: nat): (k: nat)
    requires n > 0
    ensures k < n
    ensures i < n ==> k == i
  {
    i % n
  }

  /** How many of the first `i` leftover satoshi go to position `k`. */
  ghost function Hits(i: nat, n: nat, k: nat): nat
    requires n > 0
  {
    if i == 0 then 0 else Hits(i - 1, n, k) + if Slot(i - 1, n) == k then 1 else 0
  }

  lemma {:induction false} HitsWithoutWrap(i: nat, n: nat, k: nat)
    requires n > 0 && i <= n && k < n
    ensures Hits(i, n, k) == if k < i then 1 else 0
  {
    if i > 0 {
      HitsWithoutWrap(i - 1, n, k);
    }
  }

  /** The outcome for arbitrary exact shares, with no reference to any iteration order. */
  ghost function Apportion(total: int, exact: map<string, real>): map<string, int> {
    map w | w in exact ::
      exact[w].Floor + Hits(Leftover(total, exact), |exact.Keys|, Rank(Fracs(exact), w))
  }

  lemma AmountsBump(m: map<string, int>, w: string)
    requires w in m
    ensures Amounts(m[w := m[w] + 1]) == Amounts(m) + 1
  {
    assert m[w := m[w] + 1].Keys == m.Keys;
    SumChangeOne(m.Keys, w, At(m), At(m[w := m[w] + 1]));
  }

  lemma AmountsInsert(m: map<string, int>, w: string, v: int)
    requires w !in m
    ensures Amounts(m[w := v]) == Amounts(m) + v
  {
    var m' := m[w := v];
    assert m'.Keys == m.Keys + {w};
    SumInsert(m.Keys, w, At(m'));
    SumCongruence(m.Keys, At(m'), At(m));
  }

  /** The state after the first loop: the floors, their running total, and the fractional parts. */
  ghost predicate Filled(done: map<string, real>, base: map<string, int>, given: int, parts: seq<Part>) {
    base == Floors(done) && given == Amounts(base) && Lists(parts, Fracs(done))
  }

  /** The sort and the remainder loop. However the shares were rounded, the amounts add up to the total,
      or to the sum of the floors if that is larger. */
  method DistributeRemainder(total: int, base: map<string, int>, given: int, parts: seq<Part>,
                             ghost exact: map<string, real>)
    returns (result: map<string, int>)
    requires exact != map[] && Filled(exact, base, given, parts)
    ensures result == Apportion(total, exact)
    ensures Amounts(result) == if total > Amounts(base) then total else Amounts(base)
  {
    result := base;
    var rem := total - given;
    if rem <= 0 {
      return;
    }
    var sorted := SortParts(parts, Fracs(exact));
    assert Fracs(exact).Keys == exact.Keys;
    result := HandOut(base, rem, sorted);
    DistributedByRank(total, base, result, sorted, exact);
  }

  method HandOut(base: map<string, int>, rem: nat, sorted: seq<Part>) returns (result: map<string, int>)
    requires |sorted| > 0
    requires forall i {:trigger sorted[i]} :: 0 <= i < |sorted| ==> sorted[i].worker in base
    requires forall i, j :: 0 <= i < j < |sorted| ==> sorted[i].worker != sorted[j].worker
    ensures result.Keys == base.Keys
    ensures Amounts(result) == Amounts(base) + rem
    ensures forall k {:trigger sorted[k]} :: 0 <= k < |sorted| ==>
      result[sorted[k].worker] == base[sorted[k].worker] + Hits(rem, |sorted|, k)
  {
    result := base;
    assert forall k: nat :: Hits(0, |sorted|, k) == 0;
    for i := 0 to rem
      invariant result.Keys == base.Keys
      invariant Amounts(result) == Amounts(base) + i
      invariant forall k {:trigger sorted[k]} :: 0 <= k < |sorted| ==>
        result[sorted[k].worker] == base[sorted[k].worker] + Hits(i, |sorted|, k)
    {
      var p := sorted[Slot(i, |sorted|)];
      AmountsBump(result, p.worker);
      result := result[p.worker := result[p.worker] + 1];
    }
  }

  lemma DistributedByRank(total: int, base: map<string, int>, result: map<string, int>, sorted: seq<Part>,
                          exact: map<string, real>)
    requires exact != map[] && base == Floors(exact) && |sorted| == |exact.Keys|
    requires Lists(sorted, Fracs(exact)) && SortedParts(sorted)
    requires result.Keys == base.Keys
    requires forall k {:trigger sorted[k]} :: 0 <= k < |sorted| ==>
      result[sorted[k].worker] == base[sorted[k].worker] + Hits(Leftover(total, exact), |sorted|, k)
    ensures result == Apportion(total, exact)
  {
    forall w | w in exact
      ensures result[w] == exact[w].Floor + Hits(Leftover(total, exact), |exact.Keys|, Rank(Fracs(exact), w))
    {
      var k := PositionOf(sorted, Fracs(exact), w);
      SortedPositionIsRank(sorted, Fracs(exact), k);
    }
  }

  // ----- quotas in exact arithmetic -----

  ghost function Payees(weights: map<string, real>): set<string> {
    set w | w in weights && weights[w] > 0.0
  }

  ghost function TotalWeight(weights: map<string, real>): real {
    RSum(Payees(weights), RAt(weights))
  }

  lemma TotalWeightPositive(weights: map<string, real>)
    ensures TotalWeight(weights) >= 0.0
    ensures Payees(weights) != {} ==> TotalWeight(weights) > 0.0
  {
    RSumPositive(Payees(weights), RAt(weights));
  }

  function Quota(total: int, weight: real, sum: real): real
    requires sum > 0.0
  {
    total as real * (weight / sum)
  }

  /** The exact proportional shares of the workers with a positive weight. */
  ghost function Quotas(total: int, weights: map<string, real>): map<string, real>
    requires Payees(weights) != {}
  {
    TotalWeightPositive(weights);
    map w | w in Payees(weights) :: Quota(total, weights[w], TotalWeight(weights))
  }

  /** What allocateByWeight returns: a function of the total and the weights alone. */
  ghost function Allocation(total: int, weights: map<string, real>): map<string, int> {
    if total <= 0 || Payees(weights) == {} then map[] else Apportion(total, Quotas(total, weights))
  }

  method AllocateByWeight(total: int, weights: map<string, real>) returns (result: map<string, int>)
    ensures result == Allocation(total, weights)
  {
    if total <= 0 || weights == map[] {
      assert weights == map[] ==> Payees(weights) == {};
      return map[];
    }
    var sum := SumWeights(weights);
    TotalWeightPositive(weights);
    if sum <= 0.0 {
      return map[];
    }
    ghost var exact := Quotas(total, weights);
    assert exact.Keys == Payees(weights) != {};
    var exactOf := w => Quota(total, w, sum);
    forall w | w in weights ensures HasShare(weights, exactOf, exact, w) {
      assert w in exact <==> w in Payees(weights);
    }
    var base, given, parts := FillBases(weights, exactOf, exact);
    result := DistributeRemainder(total, base, given, parts, exact);
  }

  method SumWeights(weights: map<string, real>) returns (sum: real)
    ensures sum == TotalWeight(weights)
  {
    sum := 0.0;
    var todo := weights.Keys;
    while todo != {}
      invariant todo <= weights.Keys
      invariant sum == RSum(Payees(weights) - todo, RAt(weights))
    {
      var w :| w in todo;
      if weights[w] > 0.0 {
        RSumRemove(Payees(weights) - (todo - {w}), w, RAt(weights));
        assert Payees(weights) - (todo - {w}) - {w} == Payees(weights) - todo;
        sum := sum + weights[w];
      } else {
        assert Payees(weights) - (todo - {w}) == Payees(weights) - todo;
      }
      todo := todo - {w};
    }
    assert Payees(weights) - todo == Payees(weights);
  }

  /** `exact` holds the exact share of `w` if its weight is positive, and nothing for `w` otherwise. */
  ghost predicate HasShare(weights: map<string, real>, exactOf: real -> real, exact: map<string, real>, w: string)
    requires w in weights
  {
    (w in exact <==> weights[w] > 0.0) && (w in exact ==> exact[w] == exactOf(weights[w]))
  }

  /** The workers the first loop has visited, in the order the map happened to yield them. */
  datatype Visits = Start | Visit(before: Visits, worker: string, share: real)

  ghost function Visited(v: Visits): map<string, real> {
    match v case Start => map[] case Visit(u, w, s) => Visited(u)[w := s]
  }

  ghost function BaseOf(v: Visits): map<string, int> {
    match v case Start => map[] case Visit(u, w, s) => BaseOf(u)[w := s.Floor]
  }

  ghost function GivenOf(v: Visits): int {
    match v case Start => 0 case Visit(u, w, s) => GivenOf(u) + s.Floor
  }

  ghost function PartsOf(v: Visits): seq<Part> {
    match v case Start => [] case Visit(u, w, s) => PartsOf(u) + [Part(w, s - s.Floor as real)]
  }

  ghost predicate VisitedOnce(v: Visits) {
    match v case Start => true case Visit(u, w, s) => VisitedOnce(u) && w !in Visited(u)
  }

  lemma {:induction false} VisitsFill(v: Visits)
    requires VisitedOnce(v)
    ensures Filled(Visited(v), BaseOf(v), GivenOf(v), PartsOf(v))
  {
    match v
    case Start => NothingFilled();
    case Visit(u, w, s) =>
      VisitsFill(u);
      FilledNext(Visited(u), BaseOf(u), GivenOf(u), PartsOf(u), w, s);
  }

  lemma NothingFilled()
    ensures Filled(map[], map[], 0, [])
  {
    assert Floors(map[]) == map[] && Fracs(map[]) == map[];
  }

  lemma FilledNext(done: map<string, real>, base: map<string, int>, given: int, parts: seq<Part>, w: string, share: real)
    requires Filled(done, base, given, parts) && w !in done
    ensures Filled(done[w := share], base[w := share.Floor], given + share.Floor,
                   parts + [Part(w, share - share.Floor as real)])
  {
    FillStep(done, parts, w, share);
  }

  /** The workers of `exact` outside `todo` have been visited, each once and with its exact share. */
  ghost predicate VisitedSoFar(exact: map<string, real>, todo: set<string>, v: Visits) {
    && VisitedOnce(v)
    && (forall w :: w in Visited(v) <==> w in exact && w !in todo)
    && (forall w :: w in Visited(v) ==> Visited(v)[w] == exact[w])
  }

  lemma VisitNext(exact: map<string, real>, todo: set<string>, v: Visits, w: string)
    requires VisitedSoFar(exact, todo, v) && w in todo && w in exact
    ensures VisitedSoFar(exact, todo - {w}, Visit(v, w, exact[w]))
  {
  }

  lemma SkipNext(exact: map<string, real>, todo: set<string>, v: Visits, w: string)
    requires VisitedSoFar(exact, todo, v) && w !in exact
    ensures VisitedSoFar(exact, todo - {w}, v)
  {
  }

  lemma AllVisited(exact: map<string, real>, v: Visits)
    requires VisitedSoFar(exact, {}, v)
    ensures Filled(exact, BaseOf(v), GivenOf(v), PartsOf(v))
  {
    VisitsFill(v);
    assert Visited(v) == exact;
  }

  /** The first loop over the map: floors, their running total, and the fractional parts, in any map order.
      `exactOf` stands for the expression `float64(total) * (w / sum)`, rounded in any way. */
  method FillBases(weights: map<string, real>, exactOf: real -> real, ghost exact: map<string, real>)
    returns (base: map<string, int>, given: int, parts: seq<Part>)
    requires exact.Keys <= weights.Keys && forall w :: w in weights ==> HasShare(weights, exactOf, exact, w)
    ensures Filled(exact, base, given, parts)
  {
    base, parts, given := map[], [], 0;
    var todo := weights.Keys;
    ghost var visits := Start;
    while todo != {}
      invariant todo <= weights.Keys && VisitedSoFar(exact, todo, visits)
      invariant base == BaseOf(visits) && given == GivenOf(visits) && parts == PartsOf(visits)
    {
      var worker :| worker in todo;
      assert HasShare(weights, exactOf, exact, worker);
      if weights[worker] > 0.0 {
        var share := exactOf(weights[worker]);
        base := base[worker := share.Floor];
        given := given + share.Floor;
        parts := parts + [Part(worker, share - share.Floor as real)];
        VisitNext(exact, todo, visits, worker);
        visits := Visit(visits, worker, share);
      } else {
        SkipNext(exact, todo, visits, worker);
      }
      todo := todo - {worker};
    }
    AllVisited(exact, visits);
  }

  lemma FillStep(done: map<string, real>, parts: seq<Part>, w: string, share: real)
    requires w !in done && Lists(parts, Fracs(done))
    ensures Floors(done[w := share]) == Floors(done)[w := share.Floor]
    ensures Amounts(Floors(done[w := share])) == Amounts(Floors(done)) + share.Floor
    ensures Lists(parts + [Part(w, share - share.Floor as real)], Fracs(done[w := share]))
  {
    RoundingStep(done, w, share);
    AmountsInsert(Floors(done), w, share.Floor);
    ListsAppend(parts, Fracs(done), w, share - share.Floor as real);
  }

  lemma RoundingStep(done: map<string, real>, w: string, share: real)
    requires w !in done
    ensures Floors(done[w := share]) == Floors(done)[w := share.Floor]
    ensures Fracs(done[w := share]) == Fracs(done)[w := share - share.Floor as real]
  {
  }

  lemma ListsAppend(parts: seq<Part>, fracs: map<string, real>, w: string, f: real)
    requires w !in fracs && Lists(parts, fracs)
    ensures Lists(parts + [Part(w, f)], fracs[w := f])
  {
    assert fracs[w := f].Keys == fracs.Keys + {w};
  }

  // ----- what the allocation guarantees -----

  lemma QuotasSumToTotal(total: int, weights: map<string, real>)
    requires Payees(weights) != {}
    ensures Quotas(total, weights).Keys == Payees(weights)
    ensures RSum(Payees(weights), RAt(Quotas(total, weights))) == total as real
  {
    TotalWeightPositive(weights);
    var c, q := total as real / TotalWeight(weights), Quotas(total, weights);
    forall w | w in Payees(weights) ensures RAt(q)(w) == c * RAt(weights)(w) {
      MulDiv(total as real, weights[w], TotalWeight(weights));
    }
    RSumScale(Payees(weights), c, RAt(q), RAt(weights));
  }

  lemma MulDiv(t: real, w: real, s: real)
    requires s > 0.0
    ensures t * (w / s) == t / s * w
  {
    assert t * (w / s) * s == t * w == t / s * w * s;
  }

  /** `exact` is a real-valued split of the whole number `total` over at least one worker. */
  ghost predicate ExactSplit(total: int, exact: map<string, real>) {
    exact != map[] && RSum(exact.Keys, RAt(exact)) == total as real
  }

  lemma QuotasAreExactSplit(total: int, weights: map<string, real>)
    requires Payees(weights) != {}
    ensures ExactSplit(total, Quotas(total, weights))
  {
    QuotasSumToTotal(total, weights);
    assert Pick(Payees(weights)) in Quotas(total, weights);
  }

  /** In exact arithmetic less than one satoshi per worker is left over, so `i % len(parts)` never wraps. */
  lemma LeftoverBounds(total: int, exact: map<string, real>)
    requires ExactSplit(total, exact)
    ensures Leftover(total, exact) == total - Amounts(Floors(exact)) < |exact.Keys|
    ensures RSum(exact.Keys, RAt(Fracs(exact))) == Leftover(total, exact) as real
  {
    var s := exact.Keys;
    var whole := w => At(Floors(exact))(w) as real;
    assert Floors(exact).Keys == s == Fracs(exact).Keys;
    RSumOfInts(s, whole, At(Floors(exact)));
    RSumPlus(s, RAt(exact), RAt(Fracs(exact)), whole);
    RSumFractions(s, RAt(Fracs(exact)));
  }

  lemma RankBelowSize(fracs: map<string, real>, w: string)
    requires w in fracs
    ensures Rank(fracs, w) < |fracs.Keys|
  {
    var p := Part(w, fracs[w]);
    BeforeIsStrictTotalOrder(p, p, p);
    assert w !in Earlier(fracs, p);
    SubsetSize(Earlier(fracs, p), fracs.Keys);
  }

  ghost predicate GetsExtra(total: int, exact: map<string, real>, w: string)
    requires w in exact
  {
    Rank(Fracs(exact), w) < Leftover(total, exact)
  }

  /** Quota rule: the floor of the exact share, and one satoshi more exactly for the lowest ranks. */
  lemma QuotaRule(total: int, exact: map<string, real>, w: string)
    requires ExactSplit(total, exact) && w in exact
    ensures Apportion(total, exact)[w] == exact[w].Floor + if GetsExtra(total, exact, w) then 1 else 0
  {
    LeftoverBounds(total, exact);
    RankBelowSize(Fracs(exact), w);
    assert Fracs(exact).Keys == exact.Keys;
    HitsWithoutWrap(Leftover(total, exact), |exact.Keys|, Rank(Fracs(exact), w));
  }

  /** Nothing is lost and nothing is invented: the amounts add up to the total. */
  lemma AllocationSumsToTotal(total: int, weights: map<string, real>)
    requires total > 0 && Payees(weights) != {}
    ensures Allocation(total, weights).Keys == Payees(weights)
    ensures Amounts(Allocation(total, weights)) == total
    ensures forall w :: w in Allocation(total, weights) ==> Allocation(total, weights)[w] >= 0
  {
    var exact := Quotas(total, weights);
    QuotasAreExactSplit(total, weights);
    ApportionSumsToTotal(total, exact);
    forall w | w in exact ensures Apportion(total, exact)[w] >= 0 {
      QuotaNonNegative(total, weights, w);
      QuotaRule(total, exact, w);
    }
  }

  lemma QuotaNonNegative(total: int, weights: map<string, real>, w: string)
    requires total > 0 && w in Payees(weights)
    ensures Quotas(total, weights)[w] >= 0.0
  {
    TotalWeightPositive(weights);
    assert weights[w] / TotalWeight(weights) >= 0.0;
  }

  ghost function Extra(total: int, exact: map<string, real>): string -> int {
    w => if w in exact && GetsExtra(total, exact, w) then 1 else 0
  }

  lemma ApportionSumsToTotal(total: int, exact: map<string, real>)
    requires ExactSplit(total, exact)
    ensures Amounts(Apportion(total, exact)) == total
  {
    LeftoverBounds(total, exact);
    forall w | w in exact
      ensures At(Apportion(total, exact))(w) == At(Floors(exact))(w) + Extra(total, exact)(w)
    {
      QuotaRule(total, exact, w);
    }
    assert Apportion(total, exact).Keys == Floors(exact).Keys == Fracs(exact).Keys == exact.Keys;
    SumPlus(exact.Keys, At(Apportion(total, exact)), At(Floors(exact)), Extra(total, exact));
    ExtrasSum(total, exact);
  }

  /** Exactly `Leftover` workers have a rank below it. */
  lemma ExtrasSum(total: int, exact: map<string, real>)
    requires Leftover(total, exact) <= |exact.Keys|
    ensures Sum(exact.Keys, Extra(total, exact)) == Leftover(total, exact)
  {
    var fracs := Fracs(exact);
    assert fracs.Keys == exact.Keys;
    var sorted := ASortedListing(fracs, fracs.Keys);
    forall k {:trigger sorted[k]} | 0 <= k < |sorted| ensures Rank(fracs, sorted[k].worker) == k {
      SortedPositionIsRank(sorted, fracs, k);
    }
    NamesSize(sorted, |sorted|);
    SubsetSize(Names(sorted, |sorted|), fracs.Keys);
    forall k {:trigger sorted[k]} | 0 <= k < |sorted|
      ensures Extra(total, exact)(sorted[k].worker) == if k < Leftover(total, exact) then 1 else 0
    {
    }
    ExtraPrefix(sorted, Extra(total, exact), Leftover(total, exact), |sorted|);
  }

  lemma {:induction false} ExtraPrefix(sorted: seq<Part>, extra: string -> int, rem: nat, n: nat)
    requires n <= |sorted|
    requires forall i, j :: 0 <= i < j < |sorted| ==> sorted[i].worker != sorted[j].worker
    requires forall k {:trigger sorted[k]} :: 0 <= k < |sorted| ==>
      extra(sorted[k].worker) == if k < rem then 1 else 0
    ensures Sum(Names(sorted, n), extra) == if n < rem then n else rem
  {
    if n > 0 {
      ExtraPrefix(sorted, extra, rem, n - 1);
      NamesNext(sorted, n - 1);
      var last, names := sorted[n - 1].worker, Names(sorted, n - 1);
      assert extra(last) == if n - 1 < rem then 1 else 0;
      SumInsert(names, last, extra);
      assert Names(sorted, n) == names + {last};
    } else {
      assert Names(sorted, 0) == {};
    }
  }

  /** The parts of the workers in `s`, sorted. */
  lemma {:induction false} ASortedListing(fracs: map<string, real>, s: set<string>) returns (sorted: seq<Part>)
    requires s <= fracs.Keys
    ensures |sorted| == |s| && SortedParts(sorted)
    ensures forall i {:trigger sorted[i]} :: 0 <= i < |sorted| ==>
      sorted[i].worker in s && sorted[i].frac == fracs[sorted[i].worker]
    ensures forall i, j :: 0 <= i < j < |sorted| ==> sorted[i].worker != sorted[j].worker
  {
    if s == {} {
      sorted := [];
    } else {
      var last := LastByOrder(fracs, s);
      var init := ASortedListing(fracs, s - {last});
      sorted := init + [Part(last, fracs[last])];
    }
  }

  lemma {:induction false} LastByOrder(fracs: map<string, real>, s: set<string>) returns (last: string)
    requires s <= fracs.Keys && s != {}
    ensures last in s
    ensures forall v :: v in s && v != last ==> Before(Part(v, fracs[v]), Part(last, fracs[last]))
  {
    last := Pick(s);
    if s - {last} == {} {
      assert forall v :: v in s && v != last ==> v in s - {last};
    } else {
      var first := last;
      var l := LastByOrder(fracs, s - {first});
      var pf, pl := Part(first, fracs[first]), Part(l, fracs[l]);
      BeforeIsStrictTotalOrder(pf, pl, pf);
      if Before(pf, pl) {
        last := l;
        forall v | v in s && v != l ensures Before(Part(v, fracs[v]), pl) {
          assert v != first ==> v in s - {first};
        }
      } else {
        forall v | v in s && v != first ensures Before(Part(v, fracs[v]), pf) {
          assert v in s - {first};
          BeforeIsStrictTotalOrder(Part(v, fracs[v]), pl, pf);
        }
      }
    }
  }

  /** A strictly heavier worker never gets less. */
  lemma HeavierNeverGetsLess(total: int, weights: map<string, real>, v: string, w: string)
    requires total > 0 && v in Payees(weights) && w in Payees(weights) && weights[v] > weights[w]
    ensures Allocation(total, weights)[v] >= Allocation(total, weights)[w]
  {
    var exact := Quotas(total, weights);
    TotalWeightPositive(weights);
    QuotasAreExactSplit(total, weights);
    var s := TotalWeight(weights);
    RatioMonotone(total as real, weights[v], weights[w], s);
    assert exact[v] == Quota(total, weights[v], s);
    assert exact[w] == Quota(total, weights[w], s);
    LargerShareNeverGetsLess(total, exact, v, w);
  }

  lemma RatioMonotone(t: real, a: real, b: real, s: real)
    requires t > 0.0 && s > 0.0 && a > b
    ensures t * (a / s) > t * (b / s)
  {
    assert a / s - b / s == (a - b) / s > 0.0;
    assert t * (a / s) - t * (b / s) == t * (a / s - b / s);
  }

  lemma LargerShareNeverGetsLess(total: int, exact: map<string, real>, v: string, w: string)
    requires ExactSplit(total, exact) && v in exact && w in exact && exact[v] > exact[w]
    ensures Apportion(total, exact)[v] >= Apportion(total, exact)[w]
  {
    QuotaRule(total, exact, v);
    QuotaRule(total, exact, w);
    if exact[v].Floor == exact[w].Floor {
      RankMonotone(Fracs(exact), v, w);
    }
  }

  /** Of two workers with the same weight, the one whose name comes first never gets less. */
  lemma EqualWeightsByName(total: int, weights: map<string, real>, v: string, w: string)
    requires total > 0 && v in Payees(weights) && w in Payees(weights) && weights[v] == weights[w] && StringLess(v, w)
    ensures Allocation(total, weights)[v] >= Allocation(total, weights)[w]
  {
    var exact := Quotas(total, weights);
    QuotasAreExactSplit(total, weights);
    assert exact[v] == exact[w];
    EqualSharesByName(total, exact, v, w);
  }

  lemma EqualSharesByName(total: int, exact: map<string, real>, v: string, w: string)
    requires ExactSplit(total, exact) && v in exact && w in exact && exact[v] == exact[w] && StringLess(v, w)
    ensures Apportion(total, exact)[v] >= Apportion(total, exact)[w]
  {
    QuotaRule(total, exact, v);
    QuotaRule(total, exact, w);
    RankMonotone(Fracs(exact), v, w);
  }

  // ----- optimality -----

  /** How far a split in whole satoshi is from the exact shares. */
  ghost function Distance(exact: map<string, real>, split: map<string, int>): real {
    RSum(exact.Keys, Deviation(exact, split))
  }

  ghost function Deviation(exact: map<string, real>, split: map<string, int>): string -> real {
    w => Abs(At(split)(w) as real - RAt(exact)(w))
  }

  /** `a` is the floor of `q` and its fraction is at most `t`, or one more and its fraction is at least `t`. */
  ghost predicate RoundedAt(q: real, a: int, t: real) {
    var f := q - q.Floor as real;
    (a == q.Floor && f <= t) || (a == q.Floor + 1 && f >= t)
  }

  /** The largest-remainder method rounds every share at one common threshold. */
  lemma CommonThreshold(total: int, exact: map<string, real>) returns (t: real)
    requires ExactSplit(total, exact)
    ensures 0.0 <= t < 1.0
    ensures forall w :: w in exact ==> RoundedAt(exact[w], Apportion(total, exact)[w], t)
  {
    var fracs, rem := Fracs(exact), Leftover(total, exact);
    LeftoverBounds(total, exact);
    assert fracs.Keys == exact.Keys;
    var sorted := ASortedListing(fracs, fracs.Keys);
    SortedPositionIsRank(sorted, fracs, rem);
    var c := sorted[rem].worker;
    t := fracs[c];
    forall w | w in exact ensures RoundedAt(exact[w], Apportion(total, exact)[w], t) {
      QuotaRule(total, exact, w);
      if fracs[w] < t {
        RankMonotone(fracs, c, w);
      } else if fracs[w] > t {
        RankMonotone(fracs, w, c);
      }
    }
  }

  /** For one worker with exact share `q`: moving from `a` to any other whole number `b` changes the deviation by at
      least `1 - 2t` per satoshi. */
  lemma OneWorkerSlope(q: real, a: int, t: real, b: int)
    requires 0.0 <= t < 1.0 && RoundedAt(q, a, t)
    ensures Abs(b as real - q) >= Abs(a as real - q) + (1.0 - 2.0 * t) * (b - a) as real
  {
    var dr := (b - a) as real;
    var p := t * dr;
    assert (1.0 - 2.0 * t) * dr == dr - 2.0 * p;
    if b > a {
      TimesAtLeastOne(t, dr);
    } else if b < a {
      var u, v := 1.0 - t, -dr;
      TimesAtLeastOne(u, v);
      assert u * v == v + p;
      assert v + p >= u;
      assert Abs(b as real - q) == q - a as real - dr;
      assert Abs(a as real - q) <= q - a as real + 2.0 * (1.0 - t);
      assert Abs(b as real - q) >= Abs(a as real - q) + dr - 2.0 * p;
    }
  }

  lemma TimesAtLeastOne(a: real, x: real)
    requires a >= 0.0 && x >= 1.0
    ensures a * x >= a
  {
  }

  /** Optimality: no other whole-satoshi split of the total over the same workers is closer, in total absolute
      deviation, to the exact shares. */
  lemma ApportionIsOptimal(total: int, exact: map<string, real>, other: map<string, int>)
    requires ExactSplit(total, exact)
    requires other.Keys == exact.Keys && Amounts(other) == total
    ensures Distance(exact, Apportion(total, exact)) <= Distance(exact, other)
  {
    var t := CommonThreshold(total, exact);
    ApportionSumsToTotal(total, exact);
    assert Apportion(total, exact).Keys == exact.Keys;
    ThresholdRoundingIsOptimal(exact, Apportion(total, exact), other, t);
  }

  lemma OneWorkerTilted(exact: map<string, real>, mine: map<string, int>, other: map<string, int>, t: real, w: string)
    requires w in exact && w in mine && w in other && 0.0 <= t < 1.0 && RoundedAt(exact[w], mine[w], t)
    ensures Deviation(exact, other)(w) >= Deviation(exact, mine)(w) + Tilt(1.0 - 2.0 * t, mine, other)(w)
  {
    OneWorkerSlope(exact[w], mine[w], t, other[w]);
    assert At(other)(w) == other[w] && At(mine)(w) == mine[w] && RAt(exact)(w) == exact[w];
    assert Gain(mine, other)(w) == other[w] - mine[w];
  }

  lemma ThresholdRoundingIsOptimal(exact: map<string, real>, mine: map<string, int>, other: map<string, int>, t: real)
    requires mine.Keys == other.Keys == exact.Keys && Amounts(mine) == Amounts(other)
    requires 0.0 <= t < 1.0 && forall w :: w in exact ==> RoundedAt(exact[w], mine[w], t)
    ensures Distance(exact, mine) <= Distance(exact, other)
  {
    var tilt := Tilt(1.0 - 2.0 * t, mine, other);
    forall w | w in exact ensures Deviation(exact, other)(w) >= Deviation(exact, mine)(w) + tilt(w) {
      OneWorkerTilted(exact, mine, other, t, w);
    }
    TiltCancels(exact.Keys, 1.0 - 2.0 * t, mine, other);
    RSumTilted(exact.Keys, Deviation(exact, mine), Deviation(exact, other), tilt);
  }

  ghost function Gain(a: map<string, int>, b: map<string, int>): string -> int {
    w => At(b)(w) - At(a)(w)
  }

  ghost function Tilt(slope: real, a: map<string, int>, b: map<string, int>): string -> real {
    w => slope * Gain(a, b)(w) as real
  }

  /** Between two splits of the same total, what some workers gain others lose. */
  lemma TiltCancels(s: set<string>, slope: real, a: map<string, int>, b: map<string, int>)
    requires a.Keys == b.Keys == s && Amounts(a) == Amounts(b)
    ensures RSum(s, Tilt(slope, a, b)) == 0.0
  {
    SumPlus(s, At(b), Gain(a, b), At(a));
    var gain := w => Gain(a, b)(w) as real;
    RSumOfInts(s, gain, Gain(a, b));
    RSumScale(s, slope, Tilt(slope, a, b), gain);
  }

  lemma AllocationIsOptimal(total: int, weights: map<string, real>, other: map<string, int>)
    requires total > 0 && Payees(weights) != {}
    requires other.Keys == Payees(weights) && Amounts(other) == total
    ensures Distance(Quotas(total, weights), Allocation(total, weights)) <= Distance(Quotas(total, weights), other)
  {
    QuotasAreExactSplit(total, weights);
    ApportionIsOptimal(total, Quotas(total, weights), other);
  }
}
