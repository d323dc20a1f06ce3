/** The Merkle branch of the coinbase, as shipped and as intended, against the Bitcoin Merkle tree.
    `h` is the double SHA-256 of two concatenated digests; where a theorem needs it, the pairs actually hashed are assumed
    not to collide. */
module Merkle {

  // ----- the tree -----

  /** One level up: neighbours are hashed together, and an odd last node with itself. */
  function PairUp<D>(h: (D, D) -> D, s: seq<D>): (r: seq<D>)
    ensures |r| == (|s| + 1) / 2
  {
    if s == [] then []
    else if |s| == 1 then [h(s[0], s[0])]
    else [h(s[0], s[1])] + PairUp(h, s[2..])
  }

  /** The Merkle root of a non-empty list of leaves. */
  function TreeRoot<D>(h: (D, D) -> D, s: seq<D>): D
    requires s != []
    decreases |s|
  {
    if |s| == 1 then s[0] else TreeRoot(h, PairUp(h, s))
  }

  /** A miner's fold of the coinbase hash with the branch. */
  function Fold<D>(h: (D, D) -> D, coinbase: D, branch: seq<D>): D {
    if branch == [] then coinbase else Fold(h, h(coinbase, branch[0]), branch[1..])
  }

  method MerkleRoot<D>(h: (D, D) -> D, coinbase: D, branch: seq<D>) returns (current: D)
    ensures current == Fold(h, coinbase, branch)
  {
    current := coinbase;
    for i := 0 to |branch|
      invariant Fold(h, current, branch[i..]) == Fold(h, coinbase, branch)
    {
      assert branch[i..][1..] == branch[i + 1..];
      current := h(current, branch[i]);
    }
  }

  // ----- the two branches -----

  /** What the shipped loop computes: it pairs the transactions from index 0. */
  function ShippedBranch<D>(h: (D, D) -> D, txs: seq<D>): seq<D>
    decreases |txs|
  {
    if txs == [] then []
    else
      var next := PairUp(h, txs);
      if |next| == 1 then [txs[0], next[0]] else [txs[0]] + ShippedBranch(h, next)
  }

  /** What the branch is for: the first node is the sibling on the coinbase's path, the others are paired. */
  function IntendedBranch<D>(h: (D, D) -> D, txs: seq<D>): seq<D>
    decreases |txs|
  {
    if txs == [] then [] else [txs[0]] + IntendedBranch(h, PairUp(h, txs[1..]))
  }

  /** The inner loop: one level, two nodes at a time. */
  method PairLevel<D>(h: (D, D) -> D, current: seq<D>) returns (next: seq<D>)
    ensures next == PairUp(h, current)
  {
    next := [];
    var i := 0;
    while i < |current|
      invariant 0 <= i <= |current| + 1
      invariant i <= |current| ==> next + PairUp(h, current[i..]) == PairUp(h, current)
      invariant i > |current| ==> next == PairUp(h, current)
    {
      var left := current[i];
      var right := if i + 1 < |current| then current[i + 1] else left;
      PairUpSuffix(h, current, i);
      next := next + [h(left, right)];
      i := i + 2;
    }
  }

  lemma PairUpSuffix<D>(h: (D, D) -> D, s: seq<D>, i: nat)
    requires i < |s|
    ensures PairUp(h, s[i..])
      == [h(s[i], if i + 1 < |s| then s[i + 1] else s[i])] + if i + 2 <= |s| then PairUp(h, s[i + 2..]) else []
  {
    if i + 2 <= |s| {
      assert s[i..][2..] == s[i + 2..];
    }
  }

  method MerkleBranch<D>(h: (D, D) -> D, txs: seq<D>) returns (branch: seq<D>)
    ensures branch == ShippedBranch(h, txs)
  {
    branch := [];
    if |txs| == 0 {
      return;
    }
    var current := txs;
    while |current| > 0
      invariant current != [] && branch + ShippedBranch(h, current) == ShippedBranch(h, txs)
      decreases |current|
    {
      ShippedLevel(h, branch, current);
      branch := branch + [current[0]];
      var next := PairLevel(h, current);
      current := next;
      if |current| == 1 {
        branch := branch + [current[0]];
        break;
      }
    }
  }

  /** What the shipped loop appends after the first node of a level. */
  function AfterFirst<D>(h: (D, D) -> D, next: seq<D>): seq<D>
    requires next != []
  {
    if |next| == 1 then [next[0]] else ShippedBranch(h, next)
  }

  lemma FirstThenRest<D>(h: (D, D) -> D, current: seq<D>)
    requires current != []
    ensures ShippedBranch(h, current) == [current[0]] + AfterFirst(h, PairUp(h, current))
  {
  }

  lemma Regroup<D>(a: seq<D>, b: seq<D>, c: seq<D>)
    ensures a + (b + c) == a + b + c
  {
  }

  /** One level of the shipped loop. */
  lemma ShippedLevel<D>(h: (D, D) -> D, branch: seq<D>, current: seq<D>)
    requires current != []
    ensures branch + ShippedBranch(h, current) == branch + [current[0]] + AfterFirst(h, PairUp(h, current))
  {
    FirstThenRest(h, current);
    Regroup(branch, [current[0]], AfterFirst(h, PairUp(h, current)));
  }

  /** The intended branch folds to the tree root, for every number of transactions. */
  lemma {:induction false} IntendedBranchFoldsToRoot<D>(h: (D, D) -> D, coinbase: D, txs: seq<D>)
    ensures Fold(h, coinbase, IntendedBranch(h, txs)) == TreeRoot(h, [coinbase] + txs)
    decreases |txs|
  {
    if txs != [] {
      var s := [coinbase] + txs;
      assert s[2..] == txs[1..];
      assert PairUp(h, s) == [h(coinbase, txs[0])] + PairUp(h, txs[1..]);
      IntendedBranchFoldsToRoot(h, h(coinbase, txs[0]), PairUp(h, txs[1..]));
    }
  }

  // ----- what is hashed -----

  /** The pairs hashed on one level. */
  ghost function LevelPairs<D>(s: seq<D>): set<(D, D)> {
    if s == [] then {}
    else if |s| == 1 then {(s[0], s[0])}
    else {(s[0], s[1])} + LevelPairs(s[2..])
  }

  /** The pairs hashed for a root. */
  ghost function TreePairs<D>(h: (D, D) -> D, s: seq<D>): set<(D, D)>
    decreases |s|
  {
    if |s| <= 1 then {} else LevelPairs(s) + TreePairs(h, PairUp(h, s))
  }

  /** The pairs hashed by the shipped loop. */
  ghost function ShippedPairs<D>(h: (D, D) -> D, txs: seq<D>): set<(D, D)>
    decreases |txs|
  {
    if txs == [] then {}
    else
      var next := PairUp(h, txs);
      LevelPairs(txs) + if |next| == 1 then {} else ShippedPairs(h, next)
  }

  /** The pairs hashed by a fold. */
  ghost function FoldPairs<D>(h: (D, D) -> D, coinbase: D, branch: seq<D>): set<(D, D)> {
    if branch == [] then {} else {(coinbase, branch[0])} + FoldPairs(h, h(coinbase, branch[0]), branch[1..])
  }

  /** No two of these finitely many pairs have the same hash. */
  ghost predicate CollisionFree<D>(h: (D, D) -> D, pairs: set<(D, D)>) {
    forall p, q :: p in pairs && q in pairs && h(p.0, p.1) == h(q.0, q.1) ==> p == q
  }

  /** Not the hash of one of these pairs. */
  ghost predicate IsLeaf<D>(h: (D, D) -> D, pairs: set<(D, D)>, x: D) {
    forall p :: p in pairs ==> x != h(p.0, p.1)
  }

  ghost predicate AreLeaves<D>(h: (D, D) -> D, pairs: set<(D, D)>, s: seq<D>) {
    forall i :: 0 <= i < |s| ==> IsLeaf(h, pairs, s[i])
  }

  ghost predicate Distinct<D>(s: seq<D>) {
    forall i, j :: 0 <= i < j < |s| ==> s[i] != s[j]
  }

  // ----- the shipped branch -----

  function Pow2(k: nat): (p: nat)
    ensures p >= 1
  {
    if k == 0 then 1 else 2 * Pow2(k - 1)
  }

  /** `y` is reached from `x` by going to the left child `k` times, through pairs of the set. */
  ghost predicate LeftAt<D>(h: (D, D) -> D, pairs: set<(D, D)>, x: D, k: nat, y: D) {
    if k == 0 then x == y else exists p :: p in pairs && x == h(p.0, p.1) && LeftAt(h, pairs, p.0, k - 1, y)
  }

  lemma {:induction false} LeftAtMore<D>(h: (D, D) -> D, pairs: set<(D, D)>, more: set<(D, D)>, x: D, k: nat, y: D)
    requires pairs <= more && LeftAt(h, pairs, x, k, y)
    ensures LeftAt(h, more, x, k, y)
  {
    if k > 0 {
      var p :| p in pairs && x == h(p.0, p.1) && LeftAt(h, pairs, p.0, k - 1, y);
      LeftAtMore(h, pairs, more, p.0, k - 1, y);
      assert p in more;
    }
  }

  lemma {:induction false} LeftAtDeeper<D>(h: (D, D) -> D, pairs: set<(D, D)>, x: D, k: nat, p: (D, D))
    requires p in pairs && LeftAt(h, pairs, x, k, h(p.0, p.1))
    ensures LeftAt(h, pairs, x, k + 1, p.0)
  {
    if k == 0 {
      assert LeftAt(h, pairs, p.0, 0, p.0);
    } else {
      var q :| q in pairs && x == h(q.0, q.1) && LeftAt(h, pairs, q.0, k - 1, h(p.0, p.1));
      LeftAtDeeper(h, pairs, q.0, k - 1, p);
    }
  }

  /** Without collisions there is one node at each depth on the left. */
  lemma {:induction false} LeftAtUnique<D>(h: (D, D) -> D, pairs: set<(D, D)>, x: D, k: nat, y: D, y': D)
    requires CollisionFree(h, pairs) && LeftAt(h, pairs, x, k, y) && LeftAt(h, pairs, x, k, y')
    ensures y == y'
  {
    if k > 0 {
      var p :| p in pairs && x == h(p.0, p.1) && LeftAt(h, pairs, p.0, k - 1, y);
      var q :| q in pairs && x == h(q.0, q.1) && LeftAt(h, pairs, q.0, k - 1, y');
      LeftAtUnique(h, pairs, p.0, k - 1, y, y');
    }
  }

  /** And one leaf, at one depth. */
  lemma {:induction false} LeftLeafUnique<D>(h: (D, D) -> D, pairs: set<(D, D)>, x: D, k: nat, leaf: D, k': nat, leaf': D)
    requires CollisionFree(h, pairs) && IsLeaf(h, pairs, leaf) && IsLeaf(h, pairs, leaf')
    requires LeftAt(h, pairs, x, k, leaf) && LeftAt(h, pairs, x, k', leaf')
    ensures k == k' && leaf == leaf'
  {
    if k > 0 && k' > 0 {
      var p :| p in pairs && x == h(p.0, p.1) && LeftAt(h, pairs, p.0, k - 1, leaf);
      var q :| q in pairs && x == h(q.0, q.1) && LeftAt(h, pairs, q.0, k' - 1, leaf');
      LeftLeafUnique(h, pairs, p.0, k - 1, leaf, k' - 1, leaf');
    }
  }

  /** A node's right neighbour, or the node itself at the odd end. */
  function Sibling<D>(s: seq<D>, i: nat): D
    requires i < |s|
  {
    if i + 1 < |s| then s[i + 1] else s[i]
  }

  /** Going left from `x`, one meets the pair that starts at position `i`, if k > 0, and then the entry there. */
  ghost predicate Spine<D>(h: (D, D) -> D, pairs: set<(D, D)>, x: D, k: nat, s: seq<D>, i: nat) {
    && i < |s| && LeftAt(h, pairs, x, k, s[i])
    && (k > 0 ==> LeftAt(h, pairs, x, k - 1, h(s[i], Sibling(s, i))))
  }

  lemma SpineMore<D>(h: (D, D) -> D, pairs: set<(D, D)>, more: set<(D, D)>, x: D, k: nat, s: seq<D>, i: nat)
    requires pairs <= more && Spine(h, pairs, x, k, s, i)
    ensures Spine(h, more, x, k, s, i)
  {
    LeftAtMore(h, pairs, more, x, k, s[i]);
    if k > 0 {
      LeftAtMore(h, pairs, more, x, k - 1, h(s[i], Sibling(s, i)));
    }
  }

  lemma {:induction false} PairUpAt<D>(h: (D, D) -> D, s: seq<D>, j: nat)
    requires j < |PairUp(h, s)|
    ensures (s[2 * j], Sibling(s, 2 * j)) in LevelPairs(s)
    ensures PairUp(h, s)[j] == h(s[2 * j], Sibling(s, 2 * j))
  {
    if |s| > 1 && j > 0 {
      PairUpAt(h, s[2..], j - 1);
      assert PairUp(h, s)[j] == PairUp(h, s[2..])[j - 1];
      assert s[2..][2 * (j - 1)] == s[2 * j] && Sibling(s[2..], 2 * (j - 1)) == Sibling(s, 2 * j);
    }
  }

  /** A step down the left side: from a node of the upper level to its children. */
  lemma LeftAtStep<D>(h: (D, D) -> D, upper: set<(D, D)>, pairs: set<(D, D)>, s: seq<D>, x: D, j: nat, k: nat)
    requires j < |PairUp(h, s)| && upper <= pairs && LevelPairs(s) <= pairs
    requires LeftAt(h, upper, x, k, PairUp(h, s)[j])
    ensures Spine(h, pairs, x, k + 1, s, 2 * j)
  {
    PairUpAt(h, s, j);
    LeftAtMore(h, upper, pairs, x, k, PairUp(h, s)[j]);
    LeftAtDeeper(h, pairs, x, k, (s[2 * j], Sibling(s, 2 * j)));
  }

  /** The right child of a root: going left from it, one meets the leaf at position 2^k after k steps. */
  lemma {:induction false} RootRightChild<D>(h: (D, D) -> D, s: seq<D>) returns (left: D, right: D, k: nat)
    requires |s| >= 2
    ensures (left, right) in TreePairs(h, s) && TreeRoot(h, s) == h(left, right)
    ensures Spine(h, TreePairs(h, s), right, k, s, Pow2(k))
    decreases |s|
  {
    if |s| == 2 {
      left, right, k := s[0], s[1], 0;
      assert PairUp(h, s) == [h(s[0], s[1])];
    } else {
      var k';
      left, right, k' := RootRightChild(h, PairUp(h, s));
      LeftAtStep(h, TreePairs(h, PairUp(h, s)), TreePairs(h, s), s, right, Pow2(k'), k');
      k := k' + 1;
    }
  }

  lemma ShippedBranchLast<D>(h: (D, D) -> D, txs: seq<D>) returns (last: D)
    requires |PairUp(h, txs)| > 1 && |ShippedBranch(h, PairUp(h, txs))| > 0
    ensures var b, b' := ShippedBranch(h, txs), ShippedBranch(h, PairUp(h, txs));
      |b| == 1 + |b'| && last == b[|b| - 1] == b'[|b'| - 1]
  {
    var b, b' := ShippedBranch(h, txs), ShippedBranch(h, PairUp(h, txs));
    assert b == [txs[0]] + b';
    last := b[|b| - 1];
  }

  /** The last entry of the shipped branch is the root of the tree over the transactions alone: going left from it, one
      meets the first transaction after k steps, where 2^k is no less than their number. */
  lemma {:induction false} ShippedBranchEnd<D>(h: (D, D) -> D, txs: seq<D>) returns (last: D, k: nat)
    requires txs != []
    ensures var b := ShippedBranch(h, txs); b != [] && b[|b| - 1] == last
    ensures k >= 1 && |txs| <= Pow2(k)
    ensures Spine(h, ShippedPairs(h, txs), last, k, txs, 0)
    decreases |txs|
  {
    var next := PairUp(h, txs);
    if |next| == 1 {
      last, k := next[0], 1;
      assert Pow2(1) == 2 * Pow2(0);
      LeftAtStep(h, {}, ShippedPairs(h, txs), txs, last, 0, 0);
    } else {
      var k';
      last, k' := ShippedBranchEnd(h, next);
      var l := ShippedBranchLast(h, txs);
      LeftAtStep(h, ShippedPairs(h, next), ShippedPairs(h, txs), txs, last, 0, k');
      k := k' + 1;
    }
  }

  lemma {:induction false} FoldEnd<D>(h: (D, D) -> D, coinbase: D, branch: seq<D>) returns (x: D)
    requires branch != []
    ensures (x, branch[|branch| - 1]) in FoldPairs(h, coinbase, branch)
    ensures Fold(h, coinbase, branch) == h(x, branch[|branch| - 1])
  {
    if |branch| > 1 {
      x := FoldEnd(h, h(coinbase, branch[0]), branch[1..]);
    } else {
      x := coinbase;
      assert branch[1..] == [];
    }
  }

  /** Everything hashed by the shipped loop over `txs`, by the fold with its branch, and for the root over `ids`. */
  ghost function RootPairs<D>(h: (D, D) -> D, coinbase: D, txs: seq<D>, ids: seq<D>): set<(D, D)> {
    ShippedPairs(h, txs) + FoldPairs(h, coinbase, ShippedBranch(h, txs)) + TreePairs(h, [coinbase] + ids)
  }

  /** A node that is both has the same depth on both sides, so there are exactly 2^k transactions. */
  lemma CommonNodeDepth<D>(h: (D, D) -> D, pairs: set<(D, D)>, s: seq<D>, txs: seq<D>, x: D, k: nat, k': nat)
    requires |s| == |txs| + 1 && k' >= 1 && |txs| <= Pow2(k')
    requires Spine(h, pairs, x, k, s, Pow2(k)) && Spine(h, pairs, x, k', txs, 0)
    requires CollisionFree(h, pairs) && IsLeaf(h, pairs, s[Pow2(k)]) && IsLeaf(h, pairs, txs[0])
    ensures k == k' && |txs| == Pow2(k)
  {
    LeftLeafUnique(h, pairs, x, k, s[Pow2(k)], k', txs[0]);
  }

  /** Its left pair is then the first two transactions on one side and the last node twice on the other. */
  lemma CommonNodePair<D>(h: (D, D) -> D, pairs: set<(D, D)>, s: seq<D>, txs: seq<D>, x: D, k: nat)
    requires k >= 1 && |txs| == Pow2(k) && |s| == |txs| + 1
    requires Spine(h, pairs, x, k, s, Pow2(k)) && Spine(h, pairs, x, k, txs, 0)
    requires CollisionFree(h, pairs) && LevelPairs(s) <= pairs && LevelPairs(txs) <= pairs
    ensures |txs| >= 2 && txs[0] == txs[1]
  {
    assert Pow2(k) == 2 * Pow2(k - 1);
    var p, q := (s[Pow2(k)], s[Pow2(k)]), (txs[0], txs[1]);
    LastPair(h, s, k);
    PairUpAt(h, txs, 0);
    LeftAtUnique(h, pairs, x, k - 1, h(p.0, p.1), h(q.0, q.1));
    assert p in pairs && q in pairs;
  }

  /** The last entry of the shipped branch over `txs` is not the right child of the root over `s`. */
  lemma ShippedEndIsNotTheSibling<D>(h: (D, D) -> D, pairs: set<(D, D)>, txs: seq<D>, s: seq<D>)
    returns (left: D, right: D, last: D)
    requires ShippedPairs(h, txs) <= pairs && TreePairs(h, s) <= pairs
    requires |s| == |txs| + 1 >= 2 && Distinct(txs)
    requires CollisionFree(h, pairs) && AreLeaves(h, pairs, txs) && AreLeaves(h, pairs, s[1..])
    ensures (left, right) in TreePairs(h, s) && TreeRoot(h, s) == h(left, right)
    ensures var b := ShippedBranch(h, txs); b != [] && b[|b| - 1] == last != right
  {
    var k, k';
    left, right, k := RootRightChild(h, s);
    last, k' := ShippedBranchEnd(h, txs);
    if last == right {
      NotOnBothSpines(h, pairs, txs, s, right, k, k');
    }
  }

  lemma NotOnBothSpines<D>(h: (D, D) -> D, pairs: set<(D, D)>, txs: seq<D>, s: seq<D>, x: D, k: nat, k': nat)
    requires ShippedPairs(h, txs) <= pairs && TreePairs(h, s) <= pairs
    requires |s| == |txs| + 1 >= 2 && k' >= 1 && |txs| <= Pow2(k')
    requires CollisionFree(h, pairs) && AreLeaves(h, pairs, txs) && AreLeaves(h, pairs, s[1..])
    requires Spine(h, TreePairs(h, s), x, k, s, Pow2(k)) && Spine(h, ShippedPairs(h, txs), x, k', txs, 0)
    ensures !Distinct(txs)
  {
    SpineMore(h, TreePairs(h, s), pairs, x, k, s, Pow2(k));
    SpineMore(h, ShippedPairs(h, txs), pairs, x, k', txs, 0);
    assert s[Pow2(k)] == s[1..][Pow2(k) - 1];
    CommonNodeDepth(h, pairs, s, txs, x, k, k');
    CommonNodePair(h, pairs, s, txs, x, k);
  }

  /** With a power of two behind it, the coinbase leaves the last node without a neighbour. */
  lemma LastPair<D>(h: (D, D) -> D, s: seq<D>, k: nat)
    requires k > 0 && |s| == Pow2(k) + 1
    ensures (s[Pow2(k)], s[Pow2(k)]) in LevelPairs(s)
  {
    assert Pow2(k) == 2 * Pow2(k - 1);
    PairUpAt(h, s, Pow2(k - 1));
  }

  lemma DifferentRoots<D>(h: (D, D) -> D, pairs: set<(D, D)>, coinbase: D, txs: seq<D>, s: seq<D>)
    requires ShippedPairs(h, txs) <= pairs && TreePairs(h, s) <= pairs
    requires FoldPairs(h, coinbase, ShippedBranch(h, txs)) <= pairs
    requires |s| == |txs| + 1 >= 2 && Distinct(txs)
    requires CollisionFree(h, pairs) && AreLeaves(h, pairs, txs) && AreLeaves(h, pairs, s[1..])
    ensures Fold(h, coinbase, ShippedBranch(h, txs)) != TreeRoot(h, s)
  {
    var left, right, last := ShippedEndIsNotTheSibling(h, pairs, txs, s);
    var x := FoldEnd(h, coinbase, ShippedBranch(h, txs));
    var p, q := (x, last), (left, right);
    assert p in pairs && q in pairs && p != q;
  }

  /** With any other transaction, the shipped branch misses the root, whether the tree is over the same ids or over
      others in their place. */
  lemma ShippedBranchMissesRoot<D>(h: (D, D) -> D, coinbase: D, txs: seq<D>, ids: seq<D>)
    requires |txs| == |ids| > 0 && Distinct(txs)
    requires var pairs := RootPairs(h, coinbase, txs, ids);
      CollisionFree(h, pairs) && AreLeaves(h, pairs, txs) && AreLeaves(h, pairs, ids)
    ensures Fold(h, coinbase, ShippedBranch(h, txs)) != TreeRoot(h, [coinbase] + ids)
  {
    assert ([coinbase] + ids)[1..] == ids;
    DifferentRoots(h, RootPairs(h, coinbase, txs, ids), coinbase, txs, [coinbase] + ids);
  }

  /** The shipped branch yields the root of the block's tree if and only if the block has no other transaction. Assumed is
      only that no two of the finitely many pairs hashed collide, and that no transaction id is one of those hashes. */
  lemma ShippedBranchFoldsToRootIff<D>(h: (D, D) -> D, coinbase: D, txs: seq<D>)
    requires var pairs := RootPairs(h, coinbase, txs, txs); CollisionFree(h, pairs) && AreLeaves(h, pairs, txs)
    requires Distinct(txs)
    ensures Fold(h, coinbase, ShippedBranch(h, txs)) == TreeRoot(h, [coinbase] + txs) <==> txs == []
  {
    if txs == [] {
      assert [coinbase] + txs == [coinbase];
    } else {
      ShippedBranchMissesRoot(h, coinbase, txs, txs);
    }
  }

  /** The k-th level above the transactions. */
  function Level<D>(h: (D, D) -> D, txs: seq<D>, k: nat): seq<D>
    decreases k
  {
    if k == 0 then txs else Level(h, PairUp(h, txs), k - 1)
  }

  /** The number of levels above the transactions; there is one above a single transaction too. */
  function Height(n: nat): nat {
    if n <= 2 then 1 else 1 + Height((n + 1) / 2)
  }

  /** The shipped branch lists the first node of every level, from the transactions to the top. */
  lemma {:induction false} ShippedBranchListsFirstNodes<D>(h: (D, D) -> D, txs: seq<D>, k: nat)
    requires txs != [] && k <= Height(|txs|)
    ensures |ShippedBranch(h, txs)| == Height(|txs|) + 1
    ensures Level(h, txs, k) != [] && ShippedBranch(h, txs)[k] == Level(h, txs, k)[0]
    decreases |txs|
  {
    var next := PairUp(h, txs);
    if |next| > 1 {
      ShippedBranchListsFirstNodes(h, next, if k == 0 then 0 else k - 1);
    } else if k == 1 {
      assert Level(h, txs, 1) == Level(h, next, 0) == next;
    }
  }

  // ----- byte order of the transaction ids -----

  lemma {:induction false} PairUpInjective<D>(h: (D, D) -> D, s: seq<D>, t: seq<D>)
    requires CollisionFree(h, LevelPairs(s) + LevelPairs(t)) && |s| == |t| && PairUp(h, s) == PairUp(h, t)
    ensures s == t
  {
    if |s| == 1 {
      assert PairUp(h, s)[0] == PairUp(h, t)[0];
      assert (s[0], s[0]) == (t[0], t[0]);
    } else if |s| > 1 {
      assert PairUp(h, s)[0] == PairUp(h, t)[0];
      assert (s[0], s[1]) == (t[0], t[1]);
      assert PairUp(h, s)[1..] == PairUp(h, s[2..]) && PairUp(h, t)[1..] == PairUp(h, t[2..]);
      PairUpInjective(h, s[2..], t[2..]);
      assert s == [s[0], s[1]] + s[2..] && t == [t[0], t[1]] + t[2..];
    }
  }

  lemma {:induction false} RootInjective<D>(h: (D, D) -> D, s: seq<D>, t: seq<D>)
    requires |s| == |t| > 0 && CollisionFree(h, TreePairs(h, s) + TreePairs(h, t)) && TreeRoot(h, s) == TreeRoot(h, t)
    ensures s == t
    decreases |s|
  {
    if |s| > 1 {
      RootInjective(h, PairUp(h, s), PairUp(h, t));
      PairUpInjective(h, s, t);
    }
  }

  /** The intended branch over some ids yields the root over others in their place exactly if they are the same. */
  lemma IntendedRootIff<D>(h: (D, D) -> D, coinbase: D, ids: seq<D>, others: seq<D>)
    requires |ids| == |others| && CollisionFree(h, TreePairs(h, [coinbase] + ids) + TreePairs(h, [coinbase] + others))
    ensures Fold(h, coinbase, IntendedBranch(h, ids)) == TreeRoot(h, [coinbase] + others) <==> ids == others
  {
    var s, t := [coinbase] + ids, [coinbase] + others;
    IntendedBranchFoldsToRoot(h, coinbase, ids);
    if TreeRoot(h, s) == TreeRoot(h, t) {
      RootInjective(h, s, t);
      assert ids == s[1..] && others == t[1..];
    }
  }

  /** Job construction hands over the ids in display order. Even the intended branch then yields the root over the
      internal ids only if every id equals its own reversal. */
  lemma DisplayOrderMatters<D>(h: (D, D) -> D, rev: D -> D, coinbase: D, displayed: seq<D>, ids: seq<D>)
    requires |displayed| == |ids| && forall i :: 0 <= i < |ids| ==> displayed[i] == rev(ids[i])
    requires CollisionFree(h, TreePairs(h, [coinbase] + displayed) + TreePairs(h, [coinbase] + ids))
    ensures Fold(h, coinbase, IntendedBranch(h, displayed)) == TreeRoot(h, [coinbase] + ids)
      <==> forall i :: 0 <= i < |ids| ==> ids[i] == rev(ids[i])
  {
    IntendedRootIff(h, coinbase, displayed, ids);
  }
}
