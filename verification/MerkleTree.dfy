/**
 The Merkle root of a list of leaves: level by level with the odd node duplicated
 and a lone leaf returned as it is.  Everything here holds for any type of digest
 and any way of hashing a pair.
 */
module MerkleTree {

  function CeilHalf(n: nat): (m: nat)
    ensures n / 2 <= m && 2 * m - 1 <= n <= 2 * m
  {
    (n + 1) / 2
  }

  /** The next level: neighbours are paired, an odd last node is paired with itself. */
  function NextLevel<D>(node: (D, D) -> D, level: seq<D>): (next: seq<D>)
    ensures |next| == CeilHalf(|level|)
  {
    seq(CeilHalf(|level|), i requires 0 <= i < CeilHalf(|level|) =>
      node(level[2 * i], if 2 * i + 1 < |level| then level[2 * i + 1] else level[2 * i]))
  }

  /** What the level loop computes. */
  function Root<D>(node: (D, D) -> D, level: seq<D>): D
    requires |level| > 0
    decreases |level|
  {
    if |level| == 1 then level[0] else Root(node, NextLevel(node, level))
  }

  lemma RootOfTwo<D>(node: (D, D) -> D, level: seq<D>)
    requires |level| == 2
    ensures Root(node, level) == node(level[0], level[1])
  {
    assert NextLevel(node, level) == [node(level[0], level[1])];
  }

  lemma RootOfThree<D>(node: (D, D) -> D, level: seq<D>)
    requires |level| == 3
    ensures Root(node, level) == node(node(level[0], level[1]), node(level[2], level[2]))
  {
    var next := NextLevel(node, level);
    assert next == [node(level[0], level[1]), node(level[2], level[2])];
    RootOfTwo(node, next);
  }

  /** With five leaves the last one is paired with itself on two levels. */
  lemma RootOfFive<D>(node: (D, D) -> D, level: seq<D>)
    requires |level| == 5
    ensures var last := node(level[4], level[4]);
      Root(node, level)
      == node(node(node(level[0], level[1]), node(level[2], level[3])), node(last, last))
  {
    var next := NextLevel(node, level);
    assert next == [node(level[0], level[1]), node(level[2], level[3]), node(level[4], level[4])];
    RootOfThree(node, next);
  }

  /** Number of levels above the leaves. */
  function Height(n: nat): nat
    requires n > 0
    decreases n
  {
    if n == 1 then 0 else 1 + Height(CeilHalf(n))
  }

  function Pow2(h: nat): (p: nat)
    ensures p > 0
  {
    if h == 0 then 1 else 2 * Pow2(h - 1)
  }

  /** The height is the binary logarithm, rounded up. */
  lemma {:induction false} HeightBounds(n: nat)
    requires n > 0
    ensures n <= Pow2(Height(n))
    ensures n > 1 ==> Height(n) > 0 && Pow2(Height(n) - 1) < n
    decreases n
  {
    if n > 1 {
      HeightBounds(CeilHalf(n));
    }
  }

  /** Number of pair hashes the level loop computes. */
  function PairHashes(n: nat): nat
    requires n > 0
    decreases n
  {
    if n == 1 then 0 else CeilHalf(n) + PairHashes(CeilHalf(n))
  }

  /** One hash for each inner node of a tree with n leaves, plus at most one duplicate per level. */
  lemma {:induction false} PairHashBounds(n: nat)
    requires n > 0
    ensures n - 1 <= PairHashes(n) <= n - 1 + Height(n)
    decreases n
  {
    if n > 1 {
      PairHashBounds(CeilHalf(n));
    }
  }

  // ---------------------------------------------------------------------
  // The recursive tree
  // ---------------------------------------------------------------------

  /** The root of a perfect tree of height h, by recursion on the two halves. */
  function PerfectRoot<D>(node: (D, D) -> D, h: nat, leaves: seq<D>): D
    requires |leaves| == Pow2(h)
  {
    if h == 0 then leaves[0]
    else node(PerfectRoot(node, h - 1, leaves[..Pow2(h - 1)]), PerfectRoot(node, h - 1, leaves[Pow2(h - 1)..]))
  }

  /** Which of n leaves stands at position i once the list is padded by duplication to 2^h:
      follow the tree down from the root, taking the left child where there is no right one. */
  function PadIndex(n: nat, h: nat, i: nat): (j: nat)
    requires n > 0 && h == Height(n)
    ensures j < n
    decreases h
  {
    if h == 0 then 0
    else
      var child := 2 * PadIndex(CeilHalf(n), h - 1, i / 2) + i % 2;
      if child < n then child else n - 1
  }

  function Padded<D>(leaves: seq<D>): (p: seq<D>)
    requires |leaves| > 0
    ensures |p| == Pow2(Height(|leaves|))
  {
    seq(Pow2(Height(|leaves|)), i requires 0 <= i => leaves[PadIndex(|leaves|, Height(|leaves|), i)])
  }

  lemma NextLevelAt<D>(node: (D, D) -> D, level: seq<D>, i: nat)
    requires i < CeilHalf(|level|)
    ensures 2 * i < |level|
    ensures NextLevel(node, level)[i]
         == node(level[2 * i], if 2 * i + 1 < |level| then level[2 * i + 1] else level[2 * i])
  {
  }

  /** An even split of a level splits the next one. */
  lemma NextLevelSplit<D>(node: (D, D) -> D, level: seq<D>, k: nat)
    requires 2 * k <= |level|
    ensures k <= |NextLevel(node, level)|
    ensures NextLevel(node, level[..2 * k]) == NextLevel(node, level)[..k]
    ensures NextLevel(node, level[2 * k..]) == NextLevel(node, level)[k..]
  {
    var next, left, right := NextLevel(node, level), NextLevel(node, level[..2 * k]), NextLevel(node, level[2 * k..]);
    assert |left| == k && |right| == |next| - k;
    forall i | 0 <= i < k
      ensures left[i] == next[i]
    {
      NextLevelAt(node, level, i);
      NextLevelAt(node, level[..2 * k], i);
    }
    forall i | 0 <= i < |right|
      ensures right[i] == next[k + i]
    {
      NextLevelAt(node, level, k + i);
      NextLevelAt(node, level[2 * k..], i);
    }
  }

  /** Pairing the halves first or the neighbours first gives the same perfect root. */
  lemma {:induction false} PerfectByLevels<D>(node: (D, D) -> D, h: nat, leaves: seq<D>)
    requires h > 0 && |leaves| == Pow2(h)
    ensures PerfectRoot(node, h, leaves) == PerfectRoot(node, h - 1, NextLevel(node, leaves))
    decreases h
  {
    var half := Pow2(h - 1);
    if h > 1 {
      PerfectByLevels(node, h - 1, leaves[..half]);
      PerfectByLevels(node, h - 1, leaves[half..]);
      NextLevelSplit(node, leaves, Pow2(h - 2));
    } else {
      NextLevelAt(node, leaves, 0);
    }
  }

  lemma PaddedAt<D>(leaves: seq<D>, i: nat)
    requires |leaves| > 0 && i < Pow2(Height(|leaves|))
    ensures Padded(leaves)[i] == leaves[PadIndex(|leaves|, Height(|leaves|), i)]
  {
  }

  lemma PaddedSizes(n: nat)
    requires n > 1
    ensures Height(n) > 0 && Height(CeilHalf(n)) == Height(n) - 1
    ensures Pow2(Height(n)) == 2 * Pow2(Height(n) - 1)
  {
  }

  lemma PaddedPair<D>(leaves: seq<D>, n: nat, h: nat, i: nat, j: nat)
    requires n == |leaves| > 1 && h == Height(n) > 0 && Height(CeilHalf(n)) == h - 1
    requires i < Pow2(h - 1) && Pow2(h) == 2 * Pow2(h - 1) && j == PadIndex(CeilHalf(n), h - 1, i)
    ensures Padded(leaves)[2 * i] == leaves[2 * j]
    ensures Padded(leaves)[2 * i + 1] == leaves[if 2 * j + 1 < n then 2 * j + 1 else 2 * j]
  {
    PadIndexOfPair(n, i);
    PaddedAt(leaves, 2 * i);
    PaddedAt(leaves, 2 * i + 1);
  }

  lemma PaddedNextLevel<D>(node: (D, D) -> D, leaves: seq<D>)
    requires |leaves| > 1
    ensures NextLevel(node, Padded(leaves)) == Padded(NextLevel(node, leaves))
  {
    PaddedSizes(|leaves|);
    var a, b := NextLevel(node, Padded(leaves)), Padded(NextLevel(node, leaves));
    assert |a| == |b| == Pow2(Height(|leaves|) - 1);
    forall i | 0 <= i < |a|
      ensures a[i] == b[i]
    {
      PaddedNextLevelAt(node, leaves, i);
    }
  }

  /** Equal pairs give equal nodes. */
  lemma SameNode<D>(node: (D, D) -> D, a: seq<D>, i: nat, b: seq<D>, j: nat)
    requires 2 * i + 1 < |a| && 2 * j < |b| && a[2 * i] == b[2 * j]
    requires a[2 * i + 1] == b[if 2 * j + 1 < |b| then 2 * j + 1 else 2 * j]
    ensures NextLevel(node, a)[i] == NextLevel(node, b)[j]
  {
    NextLevelAt(node, a, i);
    NextLevelAt(node, b, j);
  }

  lemma PaddedNextLevelAt<D>(node: (D, D) -> D, leaves: seq<D>, i: nat)
    requires |leaves| > 1 && 2 * i + 1 < |Padded(leaves)|
    requires i < |NextLevel(node, Padded(leaves))| && i < |Padded(NextLevel(node, leaves))|
    ensures NextLevel(node, Padded(leaves))[i] == Padded(NextLevel(node, leaves))[i]
  {
    var j := PickedPair(node, leaves, i);
    SameNode(node, Padded(leaves), i, leaves, j);
  }

  /** The pair of leaves that padding puts at position i of the next level. */
  lemma PickedPair<D>(node: (D, D) -> D, leaves: seq<D>, i: nat) returns (j: nat)
    requires |leaves| > 1 && 2 * i + 1 < |Padded(leaves)| && i < |Padded(NextLevel(node, leaves))|
    ensures 2 * j < |leaves| && Padded(NextLevel(node, leaves))[i] == NextLevel(node, leaves)[j]
    ensures Padded(leaves)[2 * i] == leaves[2 * j]
    ensures Padded(leaves)[2 * i + 1] == leaves[if 2 * j + 1 < |leaves| then 2 * j + 1 else 2 * j]
  {
    PaddedSizes(|leaves|);
    j := PadIndex(CeilHalf(|leaves|), Height(|leaves|) - 1, i);
    PaddedPair(leaves, |leaves|, Height(|leaves|), i, j);
    PaddedNextAt(node, leaves, i, j);
  }

  lemma PaddedNextAt<D>(node: (D, D) -> D, leaves: seq<D>, i: nat, j: nat)
    requires |leaves| > 1 && Height(CeilHalf(|leaves|)) == Height(|leaves|) - 1
    requires i < Pow2(Height(|leaves|) - 1) && j == PadIndex(CeilHalf(|leaves|), Height(|leaves|) - 1, i)
    ensures Padded(NextLevel(node, leaves))[i] == NextLevel(node, leaves)[j]
  {
    PaddedAt(NextLevel(node, leaves), i);
  }

  /** The padded pair below position i is the pair the level loop joins at i. */
  lemma PadIndexOfPair(n: nat, i: nat)
    requires n > 1
    ensures var h := Height(n); var j := PadIndex(CeilHalf(n), h - 1, i);
      && PadIndex(n, h, 2 * i) == 2 * j
      && PadIndex(n, h, 2 * i + 1) == if 2 * j + 1 < n then 2 * j + 1 else 2 * j
  {
    assert (2 * i) / 2 == i && (2 * i) % 2 == 0 && (2 * i + 1) / 2 == i && (2 * i + 1) % 2 == 1;
  }

  /** The level loop computes the perfect tree over the padded list. */
  lemma {:induction false} RootIsPerfect<D>(node: (D, D) -> D, leaves: seq<D>)
    requires |leaves| > 0
    ensures Root(node, leaves) == PerfectRoot(node, Height(|leaves|), Padded(leaves))
    decreases |leaves|
  {
    if |leaves| > 1 {
      var next := NextLevel(node, leaves);
      var h := Height(|leaves|);
      assert Height(|next|) == h - 1;
      RootIsPerfect(node, next);
      PaddedNextLevel(node, leaves);
      PerfectByLevels(node, h, Padded(leaves));
      assert Root(node, leaves) == Root(node, next);
    }
  }

  // ---------------------------------------------------------------------
  // When two roots agree
  // ---------------------------------------------------------------------

  ghost predicate PairInjective<D(!new)>(node: (D, D) -> D) {
    forall a, b, c, d :: node(a, b) == node(c, d) ==> a == c && b == d
  }

  lemma {:induction false} PerfectInjective<D(!new)>(node: (D, D) -> D, h: nat, a: seq<D>, b: seq<D>)
    requires PairInjective(node) && |a| == |b| == Pow2(h)
    requires PerfectRoot(node, h, a) == PerfectRoot(node, h, b)
    ensures a == b
    decreases h
  {
    if h > 0 {
      var half := Pow2(h - 1);
      PerfectInjective(node, h - 1, a[..half], b[..half]);
      PerfectInjective(node, h - 1, a[half..], b[half..]);
      assert a == a[..half] + a[half..] && b == b[..half] + b[half..];
    } else {
      assert a == [a[0]] && b == [b[0]];
    }
  }

  /** With an injective pair hash, lists of equal height have equal roots exactly when
      their paddings are equal. */
  lemma RootsAgree<D(!new)>(node: (D, D) -> D, a: seq<D>, b: seq<D>)
    requires PairInjective(node) && |a| > 0 && |b| > 0 && Height(|a|) == Height(|b|)
    ensures Root(node, a) == Root(node, b) <==> Padded(a) == Padded(b)
  {
    RootIsPerfect(node, a);
    RootIsPerfect(node, b);
    if Root(node, a) == Root(node, b) {
      PerfectInjective(node, Height(|a|), Padded(a), Padded(b));
    }
  }

  function Min(a: nat, b: nat): nat { if a <= b then a else b }

  /** The level from which the root is h levels away, or the given one if it is nearer. */
  function AtHeight<D>(node: (D, D) -> D, h: nat, level: seq<D>): (above: seq<D>)
    requires |level| > 0
    ensures |above| > 0 && Height(|above|) == Min(h, Height(|level|))
    decreases |level|
  {
    if Height(|level|) <= h then level else AtHeight(node, h, NextLevel(node, level))
  }

  /** Climbing does not change the root. */
  lemma {:induction false} RootAtHeight<D>(node: (D, D) -> D, h: nat, level: seq<D>)
    requires |level| > 0
    ensures Root(node, AtHeight(node, h, level)) == Root(node, level)
    decreases |level|
  {
    if Height(|level|) > h {
      RootAtHeight(node, h, NextLevel(node, level));
    }
  }

  /** Climbing goes level by level. */
  lemma {:induction false} OneLevelFurther<D>(node: (D, D) -> D, h: nat, level: seq<D>)
    requires |level| > 0 && h < Height(|level|)
    ensures AtHeight(node, h, level) == NextLevel(node, AtHeight(node, h + 1, level))
    decreases |level|
  {
    if Height(|level|) > h + 1 {
      OneLevelFurther(node, h, NextLevel(node, level));
    }
  }

  /** Padding may come before or after the climb. */
  lemma {:induction false} PaddedAtHeight<D>(node: (D, D) -> D, h: nat, level: seq<D>)
    requires |level| > 0
    ensures AtHeight(node, h, Padded(level)) == Padded(AtHeight(node, h, level))
    decreases |level|
  {
    HeightOfPadded(level);
    if Height(|level|) > h {
      PaddedNextLevel(node, level);
      PaddedAtHeight(node, h, NextLevel(node, level));
    }
  }

  lemma {:induction false} HeightOfPower(h: nat)
    ensures Height(Pow2(h)) == h
  {
    if h > 0 {
      HeightOfPower(h - 1);
      assert CeilHalf(Pow2(h)) == Pow2(h - 1);
    }
  }

  lemma HeightOfPadded<D>(level: seq<D>)
    requires |level| > 0
    ensures Height(|Padded(level)|) == Height(|level|)
  {
    HeightOfPower(Height(|level|));
  }

  /** With an injective pair hash, two lists of whatever lengths have equal roots exactly when their levels of the
      common height have equal paddings. */
  lemma RootsAgreeAcrossHeights<D(!new)>(node: (D, D) -> D, a: seq<D>, b: seq<D>)
    requires PairInjective(node) && |a| > 0 && |b| > 0
    ensures Root(node, a) == Root(node, b) <==>
      Padded(AtHeight(node, Height(|b|), a)) == Padded(AtHeight(node, Height(|a|), b))
  {
    RootAtHeight(node, Height(|b|), a);
    RootAtHeight(node, Height(|a|), b);
    RootsAgree(node, AtHeight(node, Height(|b|), a), AtHeight(node, Height(|a|), b));
  }

  /** Every leaf occurs in the padding, so lists of equal length have equal paddings only when equal. */
  lemma {:induction false} PadIndexOnto(n: nat, j: nat) returns (i: nat)
    requires j < n
    ensures i < Pow2(Height(n)) && PadIndex(n, Height(n), i) == j
    decreases n
  {
    if n == 1 {
      i := 0;
    } else {
      var k := PadIndexOnto(CeilHalf(n), j / 2);
      i := 2 * k + j % 2;
      assert i / 2 == k && i % 2 == j % 2;
    }
  }

  lemma PaddedInjective<D>(a: seq<D>, b: seq<D>)
    requires |a| == |b| > 0
    ensures Padded(a) == Padded(b) <==> a == b
  {
    if Padded(a) == Padded(b) {
      forall j | 0 <= j < |a|
        ensures a[j] == b[j]
      {
        var i := PadIndexOnto(|a|, j);
        assert Padded(a)[i] == a[j] && Padded(b)[i] == b[j];
      }
    }
  }

  lemma RootInjectiveAtEqualLength<D(!new)>(node: (D, D) -> D, a: seq<D>, b: seq<D>)
    requires PairInjective(node) && |a| == |b| > 0
    ensures Root(node, a) == Root(node, b) <==> a == b
  {
    RootsAgree(node, a, b);
    PaddedInjective(a, b);
  }

  /** Duplication is visible: appending the last leaf to an odd list of three or more keeps the root. */
  lemma DuplicatedLastLeaf<D>(node: (D, D) -> D, leaves: seq<D>)
    requires |leaves| >= 3 && |leaves| % 2 == 1
    ensures Root(node, leaves + [leaves[|leaves| - 1]]) == Root(node, leaves)
  {
    var more := leaves + [leaves[|leaves| - 1]];
    assert CeilHalf(|more|) == CeilHalf(|leaves|);
    forall i | 0 <= i < CeilHalf(|leaves|)
      ensures NextLevel(node, more)[i] == NextLevel(node, leaves)[i]
    {
      NextLevelAt(node, more, i);
      NextLevelAt(node, leaves, i);
    }
    assert NextLevel(node, more) == NextLevel(node, leaves);
  }

  /** A lone leaf is not hashed again, so heights may not be mixed: a pair and its own node share a root. */
  lemma PairAndItsNode<D>(node: (D, D) -> D, a: D, b: D)
    ensures Root(node, [a, b]) == Root(node, [node(a, b)])
  {
    assert NextLevel(node, [a, b]) == [node(a, b)];
  }
}
