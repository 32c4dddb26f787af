/** Merkle roots over fragment secrets, and progressive partial fills. */
module MerkleFills {
  import opened Prelude
  import opened Division

  /** BigInt division truncates towards zero. */
  function TruncDiv(a: int, b: int): int
    requires b > 0
  {
    if a >= 0 then a / b else -(-a / b)
  }

  function TruncMod(a: int, b: int): int
    requires b > 0
  {
    a - TruncDiv(a, b) * b
  }

  /** The quotient and remainder that truncation gives: the remainder has the dividend's sign, and is smaller than the divisor. */
  lemma TruncationIsExact(a: int, b: int, q: int, r: int)
    requires b > 0 && a == q * b + r && -b < r < b && (a >= 0 ==> r >= 0) && (a <= 0 ==> r <= 0)
    ensures TruncDiv(a, b) == q && TruncMod(a, b) == r
  {
    if a >= 0 {
      QuotientIsUnique(a, b, q, r);
    } else {
      QuotientIsUnique(-a, b, -q, -r);
    }
  }

  /** `percent` is None for a fill percentage that is not a whole number, which BigInt refuses. */
  datatype Secret = Secret(hash: string, percent: Option<int>)

  datatype Leaf = Leaf(secretHash: string, fillAmount: int, cumulativeAmount: int)

  /** Two-to-one hash of the source's hex strings. */
  type Combine = (string, string) -> string

  // ---- Roots ----------------------------------------------------------------------

  /** One level up: neighbours combine, a last odd node combines with itself. */
  function Level(h: Combine, nodes: seq<string>): (r: seq<string>)
    ensures |r| == (|nodes| + 1) / 2
  {
    if nodes == [] then []
    else if |nodes| == 1 then [h(nodes[0], nodes[0])]
    else [h(nodes[0], nodes[1])] + Level(h, nodes[2..])
  }

  function Root(h: Combine, nodes: seq<string>): string
    requires nodes != []
    decreases |nodes|
  {
    if |nodes| == 1 then nodes[0] else Root(h, Level(h, nodes))
  }

  lemma {:induction false} LevelAt(h: Combine, nodes: seq<string>, k: nat)
    requires 2 * k < |nodes|
    ensures Level(h, nodes)[k] == h(nodes[2 * k], if 2 * k + 1 < |nodes| then nodes[2 * k + 1] else nodes[2 * k])
  {
    if k > 0 {
      LevelAt(h, nodes[2..], k - 1);
    }
  }

  method CombineLevel(h: Combine, nodes: seq<string>) returns (nextLevel: seq<string>)
    ensures nextLevel == Level(h, nodes)
  {
    nextLevel := [];
    var i := 0;
    while i < |nodes|
      invariant i == 2 * |nextLevel| && |nextLevel| <= |Level(h, nodes)|
      invariant nextLevel == Level(h, nodes)[..|nextLevel|]
    {
      var right := if i + 1 < |nodes| then nodes[i + 1] else nodes[i];
      LevelAt(h, nodes, |nextLevel|);
      nextLevel := nextLevel + [h(nodes[i], right)];
      i := i + 2;
    }
  }

  method HashLockForMultipleFills(h: Combine, leaves: seq<string>) returns (lock: string)
    ensures lock == if leaves == [] then "0x" else Root(h, leaves)
  {
    if |leaves| == 0 {
      return "0x";
    }
    var nodes := leaves;
    while |nodes| > 1
      invariant nodes != [] && Root(h, nodes) == Root(h, leaves)
      decreases |nodes|
    {
      nodes := CombineLevel(h, nodes);
    }
    lock := nodes[0];
  }

  /** Roots of few leaves: left before right, and a last odd node with itself. */
  lemma SmallRoots(h: Combine, x: string, y: string, z: string)
    ensures Root(h, [x]) == x && Root(h, [x, y]) == h(x, y) && Root(h, [x, y, z]) == h(h(x, y), h(z, z))
  {
    assert [x, y, z][2..] == [z];
    assert Level(h, [x, y, z]) == [h(x, y), h(z, z)];
    RootOfTwo(h, x, y);
    RootOfTwo(h, h(x, y), h(z, z));
    assert Root(h, [x, y, z]) == Root(h, [h(x, y), h(z, z)]);
  }

  lemma RootOfTwo(h: Combine, x: string, y: string)
    ensures Root(h, [x, y]) == h(x, y)
  {
    assert [x, y][2..] == [];
    assert Level(h, [x, y]) == [h(x, y)];
  }

  function PairAt(nodes: seq<string>, k: nat): (string, string)
    requires 2 * k < |nodes|
  {
    (nodes[2 * k], if 2 * k + 1 < |nodes| then nodes[2 * k + 1] else nodes[2 * k])
  }

  function LevelPairs(nodes: seq<string>): set<(string, string)> {
    set k | 0 <= k < (|nodes| + 1) / 2 :: PairAt(nodes, k)
  }

  /** Every pair that is hashed on the way to the root. */
  function HashedPairs(h: Combine, nodes: seq<string>): set<(string, string)>
    decreases |nodes|
  {
    if |nodes| <= 1 then {} else LevelPairs(nodes) + HashedPairs(h, Level(h, nodes))
  }

  ghost predicate CollisionFreeOn(h: Combine, pairs: set<(string, string)>) {
    forall p, q :: p in pairs && q in pairs && h(p.0, p.1) == h(q.0, q.1) ==> p == q
  }

  lemma LevelHashesPairs(h: Combine, nodes: seq<string>, k: nat)
    requires 2 * k < |nodes|
    ensures Level(h, nodes)[k] == h(PairAt(nodes, k).0, PairAt(nodes, k).1)
    ensures PairAt(nodes, k) in LevelPairs(nodes)
  {
    LevelAt(h, nodes, k);
  }

  lemma LevelCommits(h: Combine, a: seq<string>, b: seq<string>)
    requires |a| == |b| && Level(h, a) == Level(h, b)
    requires CollisionFreeOn(h, LevelPairs(a) + LevelPairs(b))
    ensures a == b
  {
    forall i | 0 <= i < |a|
      ensures a[i] == b[i]
    {
      LevelHashesPairs(h, a, i / 2);
      LevelHashesPairs(h, b, i / 2);
      assert PairAt(a, i / 2) == PairAt(b, i / 2);
      assert i == 2 * (i / 2) || i == 2 * (i / 2) + 1;
    }
  }

  /** For a given number of leaves, and no collision among the pairs hashed, the root commits to all leaves in order. */
  lemma {:induction false} RootCommitsToLeaves(h: Combine, a: seq<string>, b: seq<string>)
    requires |a| == |b| > 0 && CollisionFreeOn(h, HashedPairs(h, a) + HashedPairs(h, b))
    ensures Root(h, a) == Root(h, b) <==> a == b
    decreases |a|
  {
    if |a| > 1 {
      RootCommitsToLeaves(h, Level(h, a), Level(h, b));
      if Level(h, a) == Level(h, b) {
        LevelCommits(h, a, b);
      }
    }
  }

  // ---- Different numbers of leaves ---------------------------------------------------

  /** The number of leaves must be known apart from the root: a last odd leaf weighs the same as twice that leaf. */
  lemma RootHidesLeafCount(h: Combine, a: seq<string>)
    requires |a| % 2 == 1 && |a| > 1
    ensures Root(h, a) == Root(h, a + [a[|a| - 1]])
  {
    var twice := a + [a[|a| - 1]];
    forall k | 0 <= k < |Level(h, a)|
      ensures Level(h, a)[k] == Level(h, twice)[k]
    {
      LevelAt(h, a, k);
      LevelAt(h, twice, k);
    }
    assert Level(h, a) == Level(h, twice);
  }

  function Singles(a: seq<string>): (r: seq<seq<string>>)
    ensures |r| == |a|
  {
    if a == [] then [] else [[a[0]]] + Singles(a[1..])
  }

  /** One level up, on the leaves below the nodes. */
  function Merge(blocks: seq<seq<string>>): (r: seq<seq<string>>)
    ensures |r| == (|blocks| + 1) / 2
  {
    if blocks == [] then []
    else if |blocks| == 1 then [blocks[0] + blocks[0]]
    else [blocks[0] + blocks[1]] + Merge(blocks[2..])
  }

  function MergeAll(blocks: seq<seq<string>>): seq<string>
    requires blocks != []
    decreases |blocks|
  {
    if |blocks| == 1 then blocks[0] else MergeAll(Merge(blocks))
  }

  /** The leaf list that the tree stands for: padded to a power of two, level by level, as the tree pads its nodes. */
  function Padded(a: seq<string>): seq<string>
    requires a != []
  {
    MergeAll(Singles(a))
  }

  /** The number of levels above `n` leaves. */
  function Depth(n: nat): nat { if n <= 1 then 0 else 1 + Depth((n + 1) / 2) }

  function TwoTo(n: nat): (r: nat)
    ensures r >= 1
  {
    if n == 0 then 1 else 2 * TwoTo(n - 1)
  }

  lemma {:induction false} LevelOfHalves(h: Combine, x: seq<string>, y: seq<string>)
    requires |x| % 2 == 0
    ensures Level(h, x + y) == Level(h, x) + Level(h, y)
  {
    if x == [] {
      assert x + y == y;
    } else {
      assert (x + y)[2..] == x[2..] + y;
      LevelOfHalves(h, x[2..], y);
    }
  }

  lemma {:induction false} RootOfHalves(h: Combine, x: seq<string>, y: seq<string>, n: nat)
    requires |x| == |y| == TwoTo(n)
    ensures Root(h, x + y) == h(Root(h, x), Root(h, y))
    decreases n
  {
    if n == 0 {
      assert x + y == [x[0], y[0]];
      assert (x + y)[2..] == [];
      assert Level(h, x + y) == [h(x[0], y[0])];
    } else {
      LevelOfHalves(h, x, y);
      RootOfHalves(h, Level(h, x), Level(h, y), n - 1);
    }
  }

  ghost predicate Sized(blocks: seq<seq<string>>, n: nat) {
    forall i :: 0 <= i < |blocks| ==> |blocks[i]| == TwoTo(n)
  }

  function Roots(h: Combine, blocks: seq<seq<string>>): (r: seq<string>)
    ensures |r| == |blocks|
  {
    if blocks == [] then []
    else [if blocks[0] == [] then "" else Root(h, blocks[0])] + Roots(h, blocks[1..])
  }

  lemma {:induction false} MergeDoubles(blocks: seq<seq<string>>, n: nat)
    requires Sized(blocks, n)
    ensures Sized(Merge(blocks), n + 1)
  {
    if |blocks| >= 2 {
      MergeDoubles(blocks[2..], n);
    }
  }

  lemma RootsOfTwo(h: Combine, blocks: seq<seq<string>>)
    requires |blocks| >= 2 && blocks[0] != [] && blocks[1] != []
    ensures Roots(h, blocks) == [Root(h, blocks[0]), Root(h, blocks[1])] + Roots(h, blocks[2..])
  {
    assert blocks[1..][1..] == blocks[2..];
  }

  lemma {:induction false} LevelOfRoots(h: Combine, blocks: seq<seq<string>>, n: nat)
    requires Sized(blocks, n)
    ensures Level(h, Roots(h, blocks)) == Roots(h, Merge(blocks))
  {
    if |blocks| == 1 {
      RootOfHalves(h, blocks[0], blocks[0], n);
    } else if |blocks| >= 2 {
      RootOfHalves(h, blocks[0], blocks[1], n);
      RootsOfTwo(h, blocks);
      LevelOfRoots(h, blocks[2..], n);
    }
  }

  lemma {:induction false} RootOfBlocks(h: Combine, blocks: seq<seq<string>>, n: nat, depth: nat)
    requires blocks != [] && Sized(blocks, n) && depth == Depth(|blocks|)
    ensures |MergeAll(blocks)| == TwoTo(n + depth)
    ensures Root(h, Roots(h, blocks)) == Root(h, MergeAll(blocks))
    decreases |blocks|
  {
    if |blocks| > 1 {
      MergeDoubles(blocks, n);
      LevelOfRoots(h, blocks, n);
      RootOfBlocks(h, Merge(blocks), n + 1, depth - 1);
    }
  }

  lemma {:induction false} RootsOfSingles(h: Combine, a: seq<string>)
    ensures Sized(Singles(a), 0) && Roots(h, Singles(a)) == a
  {
    if a != [] {
      RootsOfSingles(h, a[1..]);
    }
  }

  lemma PaddingKeepsTheRoot(h: Combine, a: seq<string>)
    requires a != []
    ensures |Padded(a)| == TwoTo(Depth(|a|)) && Root(h, Padded(a)) == Root(h, a)
  {
    RootsOfSingles(h, a);
    RootOfBlocks(h, Singles(a), 0, Depth(|a|));
  }

  /** The nodes `k` levels above. */
  function Up(h: Combine, nodes: seq<string>, k: nat): seq<string>
    decreases k
  {
    if k == 0 then nodes else Up(h, Level(h, nodes), k - 1)
  }

  lemma {:induction false} UpOfAPowerOfTwo(h: Combine, nodes: seq<string>, n: nat, k: nat)
    requires |nodes| == TwoTo(n + k)
    ensures |Up(h, nodes, k)| == TwoTo(n) && Root(h, Up(h, nodes, k)) == Root(h, nodes)
    decreases k
  {
    if k > 0 {
      assert TwoTo(n + k) == 2 * TwoTo(n + k - 1);
      UpOfAPowerOfTwo(h, Level(h, nodes), n, k - 1);
    }
  }

  /**
   * For any leaf lists, the second at least as deep as the first, and no collision among the
   * pairs hashed: roots are equal exactly when the padded leaves of the first are the nodes
   * of the second at the same height. So lists of one depth share a root exactly when their
   * padded leaves are equal, and of different depths when one lists inner nodes of the other.
   */
  lemma RootsEqualIffPaddedLeavesAre(h: Combine, a: seq<string>, b: seq<string>, k: nat)
    requires a != [] && b != [] && Depth(|a|) + k == Depth(|b|)
    requires CollisionFreeOn(h, HashedPairs(h, Padded(a)) + HashedPairs(h, Up(h, Padded(b), k)))
    ensures Root(h, a) == Root(h, b) <==> Padded(a) == Up(h, Padded(b), k)
    ensures k == 0 ==> Up(h, Padded(b), k) == Padded(b)
  {
    PaddingKeepsTheRoot(h, a);
    UpKeepsTheRoot(h, b, Depth(|a|), k);
    RootCommitsToLeaves(h, Padded(a), Up(h, Padded(b), k));
  }

  lemma UpKeepsTheRoot(h: Combine, b: seq<string>, n: nat, k: nat)
    requires b != [] && n + k == Depth(|b|)
    ensures |Up(h, Padded(b), k)| == TwoTo(n) && Root(h, Up(h, Padded(b), k)) == Root(h, b)
  {
    PaddingKeepsTheRoot(h, b);
    UpOfAPowerOfTwo(h, Padded(b), n, k);
  }

  // ---- The tree -------------------------------------------------------------------

  datatype Node = Tip(leaf: Leaf) | Pair(digest: string, left: Node, right: Option<Node>) {
    function Hash(): string {
      match this
      case Tip(leaf) => leaf.secretHash
      case Pair(digest, _, _) => digest
    }

    /** The leaves below, left to right. */
    function Leaves(): seq<Leaf> {
      match this
      case Tip(leaf) => [leaf]
      case Pair(_, left, None) => left.Leaves()
      case Pair(_, left, Some(right)) => left.Leaves() + right.Leaves()
    }

    /** Every digest combines its children's, an only child twice. */
    ghost predicate Hashed(h: Combine) {
      match this
      case Tip(_) => true
      case Pair(digest, left, None) => digest == h(left.Hash(), left.Hash()) && left.Hashed(h)
      case Pair(digest, left, Some(right)) => digest == h(left.Hash(), right.Hash()) && left.Hashed(h) && right.Hashed(h)
    }
  }

  function Hashes(nodes: seq<Node>): (r: seq<string>)
    ensures |r| == |nodes|
    ensures forall i :: 0 <= i < |r| ==> r[i] == nodes[i].Hash()
  {
    if nodes == [] then [] else [nodes[0].Hash()] + Hashes(nodes[1..])
  }

  function AllLeaves(nodes: seq<Node>): seq<Leaf> {
    if nodes == [] then [] else nodes[0].Leaves() + AllLeaves(nodes[1..])
  }

  function Join(h: Combine, left: Node, right: Option<Node>): Node {
    Pair(h(left.Hash(), if right.Some? then right.value.Hash() else left.Hash()), left, right)
  }

  function Pairs(h: Combine, nodes: seq<Node>): (r: seq<Node>)
    ensures |r| == (|nodes| + 1) / 2
  {
    if nodes == [] then []
    else if |nodes| == 1 then [Join(h, nodes[0], None)]
    else [Join(h, nodes[0], Some(nodes[1]))] + Pairs(h, nodes[2..])
  }

  lemma {:induction false} PairsAt(h: Combine, nodes: seq<Node>, k: nat)
    requires 2 * k < |nodes|
    ensures Pairs(h, nodes)[k] == Join(h, nodes[2 * k], if 2 * k + 1 < |nodes| then Some(nodes[2 * k + 1]) else None)
  {
    if k > 0 {
      PairsAt(h, nodes[2..], k - 1);
    }
  }

  lemma {:induction false} PairsKeepHashes(h: Combine, nodes: seq<Node>)
    ensures Hashes(Pairs(h, nodes)) == Level(h, Hashes(nodes))
  {
    if |nodes| >= 2 {
      PairsKeepHashes(h, nodes[2..]);
      assert Hashes(nodes)[2..] == Hashes(nodes[2..]);
      assert Pairs(h, nodes)[1..] == Pairs(h, nodes[2..]);
    }
  }

  lemma {:induction false} PairsKeepLeaves(h: Combine, nodes: seq<Node>)
    ensures AllLeaves(Pairs(h, nodes)) == AllLeaves(nodes)
  {
    if |nodes| >= 2 {
      PairsKeepLeaves(h, nodes[2..]);
      assert nodes[1..][1..] == nodes[2..];
      assert AllLeaves(nodes) == nodes[0].Leaves() + (nodes[1].Leaves() + AllLeaves(nodes[2..]));
      assert Pairs(h, nodes)[1..] == Pairs(h, nodes[2..]);
    }
  }

  lemma {:induction false} PairsAreHashed(h: Combine, nodes: seq<Node>)
    requires forall n :: n in nodes ==> n.Hashed(h)
    ensures forall n :: n in Pairs(h, nodes) ==> n.Hashed(h)
  {
    if |nodes| >= 2 {
      PairsAreHashed(h, nodes[2..]);
      assert nodes[0] in nodes && nodes[1] in nodes;
    } else if |nodes| == 1 {
      assert nodes[0] in nodes;
    }
  }

  method NextLevel(h: Combine, nodes: seq<Node>) returns (nextLevel: seq<Node>)
    ensures nextLevel == Pairs(h, nodes)
  {
    nextLevel := [];
    var i := 0;
    while i < |nodes|
      invariant 0 <= i && i % 2 == 0 && i <= |nodes| + 1
      invariant nextLevel == Pairs(h, nodes)[..i / 2]
    {
      var left := nodes[i];
      var right := if i + 1 < |nodes| then nodes[i + 1] else left;
      PairsAt(h, nodes, i / 2);
      nextLevel := nextLevel + [Pair(h(left.Hash(), right.Hash()), left, if i + 1 < |nodes| then Some(right) else None)];
      i := i + 2;
    }
    assert nextLevel == Pairs(h, nodes);
  }

  function SecretHashes(leaves: seq<Leaf>): seq<string> {
    seq(|leaves|, i requires 0 <= i < |leaves| => leaves[i].secretHash)
  }

  /** The tree over the leaves holds each of them once, in order, under the root the hash lock computes. */
  method BuildTree(h: Combine, leaves: seq<Leaf>) returns (root: Option<Node>)
    ensures root.None? <==> leaves == []
    ensures root.Some? ==>
              && root.value.Hashed(h)
              && root.value.Leaves() == leaves
              && root.value.Hash() == Root(h, SecretHashes(leaves))
  {
    if |leaves| == 0 {
      return None;
    }
    ghost var hashes := SecretHashes(leaves);
    var nodes := seq(|leaves|, i requires 0 <= i < |leaves| => Tip(leaves[i]));
    assert Hashes(nodes) == hashes;
    TipsHoldTheLeaves(leaves, nodes);
    while |nodes| > 1
      invariant nodes != [] && Root(h, Hashes(nodes)) == Root(h, hashes)
      invariant AllLeaves(nodes) == leaves
      invariant forall n :: n in nodes ==> n.Hashed(h)
      decreases |nodes|
    {
      PairsKeepHashes(h, nodes);
      PairsKeepLeaves(h, nodes);
      PairsAreHashed(h, nodes);
      nodes := NextLevel(h, nodes);
    }
    assert AllLeaves(nodes) == nodes[0].Leaves();
    assert nodes[0] in nodes;
    root := Some(nodes[0]);
  }

  lemma {:induction false} TipsHoldTheLeaves(leaves: seq<Leaf>, nodes: seq<Node>)
    requires |nodes| == |leaves| && forall i :: 0 <= i < |nodes| ==> nodes[i] == Tip(leaves[i])
    ensures AllLeaves(nodes) == leaves
  {
    if leaves != [] {
      TipsHoldTheLeaves(leaves[1..], nodes[1..]);
    }
  }

  // ---- Leaves and their amounts -----------------------------------------------------

  /** `generateSecrets` splits an order into `|hashes|` equal percentages. */
  function GenerateSecrets(hashes: seq<string>): seq<Secret> {
    var n := |hashes|;
    seq(n, i requires 0 <= i < n => Secret(hashes[i], if 100 % n == 0 then Some(100 / n) else None))
  }

  function LeafOf(secret: Secret, total: int, before: int): Leaf
    requires secret.percent.Some?
  {
    var fill := TruncDiv(total * secret.percent.value, 100);
    Leaf(secret.hash, fill, before + fill)
  }

  /** The leaves up to the first secret whose percentage BigInt refuses. */
  function LeavesOf(secrets: seq<Secret>, total: int): (r: seq<Leaf>)
    ensures |r| <= |secrets|
  {
    if secrets == [] then []
    else
      var n := |secrets| - 1;
      var rest := LeavesOf(secrets[..n], total);
      if |rest| == n && secrets[n].percent.Some?
      then rest + [LeafOf(secrets[n], total, if n == 0 then 0 else rest[n - 1].cumulativeAmount)]
      else rest
  }

  function HashesOf(secrets: seq<Secret>): seq<string> {
    seq(|secrets|, i requires 0 <= i < |secrets| => secrets[i].hash)
  }

  lemma {:induction false} LeavesKeepHashes(secrets: seq<Secret>, total: int)
    requires |LeavesOf(secrets, total)| == |secrets|
    ensures SecretHashes(LeavesOf(secrets, total)) == HashesOf(secrets)
  {
    if secrets != [] {
      var n := |secrets| - 1;
      LeavesKeepHashes(secrets[..n], total);
      var rest := LeavesOf(secrets[..n], total);
      assert forall i :: 0 <= i < n ==> SecretHashes(rest)[i] == rest[i].secretHash && HashesOf(secrets[..n])[i] == secrets[i].hash;
    }
  }

  /** Each leaf has its secret's hash, its percentage of the total, truncated, and the sum up to it. */
  lemma {:induction false} LeavesFollowTheirPercentages(secrets: seq<Secret>, total: int, i: nat)
    requires |LeavesOf(secrets, total)| == |secrets| && i < |secrets|
    ensures var leaves := LeavesOf(secrets, total);
            && secrets[i].percent.Some? && leaves[i].secretHash == secrets[i].hash
            && leaves[i].fillAmount == TruncDiv(total * secrets[i].percent.value, 100)
            && leaves[i].cumulativeAmount == leaves[i].fillAmount + if i == 0 then 0 else leaves[i - 1].cumulativeAmount
  {
    var n := |secrets| - 1;
    if i < n {
      LeavesFollowTheirPercentages(secrets[..n], total, i);
    }
  }

  class MerkleTreeSecrets {
    const h: Combine
    var leaves: seq<Leaf>
    var root: Option<Node>

    constructor (h: Combine)
      ensures leaves == [] && root == None && this.h == h
    {
      this.h := h;
      leaves, root := [], None;
    }

    /** Rebuild leaves and root. None is the RangeError of a fractional percentage, which leaves the old root in place. */
    method CreateMerkleTree(secrets: seq<Secret>, total: int) returns (rootHash: Option<string>)
      modifies this
      ensures leaves == LeavesOf(secrets, total)
      ensures rootHash.Some? <==> forall i :: 0 <= i < |secrets| ==> secrets[i].percent.Some?
      ensures rootHash.None? ==> root == old(root)
      ensures rootHash.Some? ==>
                rootHash.value == if secrets == [] then "" else Root(h, HashesOf(secrets))
      ensures rootHash.Some? && secrets != [] ==> root.Some? && root.value.Hashed(h) && root.value.Leaves() == leaves
    {
      leaves := [];
      var cumulative := 0;
      for i := 0 to |secrets|
        invariant |leaves| == i && leaves == LeavesOf(secrets[..i], total)
        invariant forall j :: 0 <= j < i ==> secrets[j].percent.Some?
        invariant cumulative == if i == 0 then 0 else leaves[i - 1].cumulativeAmount
        invariant root == old(root)
      {
        assert secrets[..i + 1][..i] == secrets[..i];
        if secrets[i].percent.None? {
          StoppedLeavesStayShort(secrets, total, i);
          return None;
        }
        var leaf := LeafOf(secrets[i], total, cumulative);
        cumulative := leaf.cumulativeAmount;
        leaves := leaves + [leaf];
      }
      assert secrets[..|secrets|] == secrets;
      root := BuildTree(h, leaves);
      if root.None? {
        return Some("");
      }
      LeavesKeepHashes(secrets, total);
      rootHash := Some(root.value.Hash());
    }

    method ValidatePartialFill(index: int, secretHash: string, amount: int, filled: int) returns (verdict: Verdict)
      ensures verdict == Validate(leaves, index, secretHash, amount, filled)
      ensures verdict.Valid? <==>
                && 0 <= index < |leaves| && leaves[index].secretHash == secretHash
                && (index > 0 ==> leaves[index - 1].cumulativeAmount <= filled)
                && filled + amount <= leaves[index].cumulativeAmount
    {
      if index < 0 || index >= |leaves| {
        return InvalidIndex;
      }
      var leaf := leaves[index];
      if leaf.secretHash != secretHash {
        return WrongSecret;
      }
      if filled + amount > leaf.cumulativeAmount {
        return ExceedsFragment;
      }
      if index > 0 {
        var previous := leaves[index - 1];
        if filled < previous.cumulativeAmount {
          return NotProgressive;
        }
      }
      verdict := Valid(if index < |leaves| - 1 then Some(leaves[index + 1].secretHash) else None);
    }
  }

  lemma {:induction false} StoppedLeavesStayShort(secrets: seq<Secret>, total: int, i: nat)
    requires i < |secrets| && secrets[i].percent.None? && |LeavesOf(secrets[..i], total)| == i
    ensures LeavesOf(secrets, total) == LeavesOf(secrets[..i], total)
  {
    if i < |secrets| - 1 {
      var n := |secrets| - 1;
      assert secrets[..n][..i] == secrets[..i];
      StoppedLeavesStayShort(secrets[..n], total, i);
    }
  }

  lemma ScaledQuotient(a: nat, n: nat, k: nat)
    requires n > 0 && k > 0
    ensures n * k > 0 && (a * k) / (n * k) == a / n
  {
    var q, r := a / n, a % n;
    assert a == q * n + r;
    assert a * k == q * (n * k) + r * k;
    assert r * k < n * k by {
      assert r + 1 <= n;
      assert (r + 1) * k <= n * k;
    }
    assert n * k > 0;
    QuotientIsUnique(a * k, n * k, q, r * k);
  }

  /** A percentage 100/n of the total is the total divided by n, whatever its sign. */
  lemma PercentageIsAnEqualPart(total: int, n: nat)
    requires n > 0 && 100 % n == 0
    ensures TruncDiv(total * (100 / n), 100) == TruncDiv(total, n)
  {
    var k := 100 / n;
    assert n * k == 100;
    var a := if total >= 0 then total else -total;
    ScaledQuotient(a, n, k);
    assert total * k == if total >= 0 then a * k else -(a * k);
    assert a * k >= 0;
  }

  /** `k` equal parts. */
  function Parts(part: int, k: nat): int { if k == 0 then 0 else Parts(part, k - 1) + part }

  lemma {:induction false} PartsMultiply(part: int, k: nat)
    ensures Parts(part, k) == k * part
  {
    if k > 0 {
      PartsMultiply(part, k - 1);
    }
  }

  lemma {:induction false} FirstFragments(secrets: seq<Secret>, total: int, part: int)
    requires forall i :: 0 <= i < |secrets| ==> secrets[i].percent.Some? && TruncDiv(total * secrets[i].percent.value, 100) == part
    ensures var leaves := LeavesOf(secrets, total);
            |leaves| == |secrets| && forall i :: 0 <= i < |secrets| ==> leaves[i] == Leaf(secrets[i].hash, part, Parts(part, i + 1))
  {
    if secrets != [] {
      FirstFragments(secrets[..|secrets| - 1], total, part);
    }
  }

  /** With a count that divides 100 every fragment is an equal part, and the last cumulative amount is the total less its remainder. */
  lemma EqualFragments(hashes: seq<string>, total: int)
    requires hashes != [] && 100 % |hashes| == 0
    ensures var n := |hashes|;
            var leaves := LeavesOf(GenerateSecrets(hashes), total);
            && |leaves| == n
            && (forall i :: 0 <= i < n ==> leaves[i] == Leaf(hashes[i], TruncDiv(total, n), Parts(TruncDiv(total, n), i + 1)))
            && leaves[n - 1].cumulativeAmount == total - TruncMod(total, n)
  {
    var n := |hashes|;
    PercentageIsAnEqualPart(total, n);
    FirstFragments(GenerateSecrets(hashes), total, TruncDiv(total, n));
    PartsMultiply(TruncDiv(total, n), n);
  }

  /** With any other count the source throws: no fragment is made. */
  lemma UnequalFragmentsAreRefused(hashes: seq<string>, total: int)
    requires hashes != [] && 100 % |hashes| != 0
    ensures LeavesOf(GenerateSecrets(hashes), total) == []
  {
    var secrets := GenerateSecrets(hashes);
    assert LeavesOf(secrets[..0], total) == [];
    StoppedLeavesStayShort(secrets, total, 0);
  }

  // ---- Progressive fills --------------------------------------------------------------

  datatype Verdict = Valid(nextSecret: Option<string>) | InvalidIndex | WrongSecret | ExceedsFragment | NotProgressive

  function Validate(leaves: seq<Leaf>, index: int, secretHash: string, amount: int, filled: int): Verdict {
    if index < 0 || index >= |leaves| then InvalidIndex
    else if leaves[index].secretHash != secretHash then WrongSecret
    else if filled + amount > leaves[index].cumulativeAmount then ExceedsFragment
    else if index > 0 && filled < leaves[index - 1].cumulativeAmount then NotProgressive
    else Valid(if index < |leaves| - 1 then Some(leaves[index + 1].secretHash) else None)
  }

  /** Each verdict, exactly; an accepted fill is told the secret hash of the fragment after it, if there is one. */
  lemma VerdictsAreExact(leaves: seq<Leaf>, index: int, secretHash: string, amount: int, filled: int)
    ensures var v := Validate(leaves, index, secretHash, amount, filled);
            var known := 0 <= index < |leaves|;
            && (v == InvalidIndex <==> !known)
            && (v == WrongSecret <==> known && leaves[index].secretHash != secretHash)
            && (v == ExceedsFragment <==>
                  known && leaves[index].secretHash == secretHash && filled + amount > leaves[index].cumulativeAmount)
            && (v == NotProgressive <==>
                  && known && leaves[index].secretHash == secretHash && filled + amount <= leaves[index].cumulativeAmount
                  && index >= 1 && filled < leaves[index - 1].cumulativeAmount)
            && (v == Valid(None) ==> index == |leaves| - 1)
            && (v.Valid? && v.nextSecret.Some? ==> index + 1 < |leaves| && v.nextSecret.value == leaves[index + 1].secretHash)
            && (v.Valid? && v.nextSecret.None? ==> index + 1 == |leaves|)
  {
  }

  /** A fill that completes its fragment is told the very secret hash that opens the next one. */
  lemma NextSecretOpensNext(leaves: seq<Leaf>, index: int, secretHash: string, amount: int, filled: int, more: int)
    requires Validate(leaves, index, secretHash, amount, filled).Valid?
    requires 0 <= index < |leaves| - 1 && filled + amount == leaves[index].cumulativeAmount
    requires filled + amount + more <= leaves[index + 1].cumulativeAmount
    ensures var next := Validate(leaves, index, secretHash, amount, filled).nextSecret;
            next.Some? && Validate(leaves, index + 1, next.value, more, filled + amount).Valid?
  {
  }

  datatype Fill = Fill(index: int, secretHash: string, amount: int)

  function Filled(fills: seq<Fill>): int {
    if fills == [] then 0 else Filled(fills[..|fills| - 1]) + fills[|fills| - 1].amount
  }

  function FilledOf(fills: seq<Fill>, index: int): int {
    if fills == [] then 0
    else FilledOf(fills[..|fills| - 1], index) + if fills[|fills| - 1].index == index then fills[|fills| - 1].amount else 0
  }

  /** A run of positive fills, each accepted against what the earlier ones filled. */
  ghost predicate Accepted(leaves: seq<Leaf>, fills: seq<Fill>) {
    fills == [] ||
    (var n := |fills| - 1;
     && Accepted(leaves, fills[..n])
     && fills[n].amount > 0
     && Validate(leaves, fills[n].index, fills[n].secretHash, fills[n].amount, Filled(fills[..n])).Valid?)
  }

  /** Positive fragments whose cumulative amounts add up. */
  ghost predicate Cumulative(leaves: seq<Leaf>) {
    && (leaves != [] ==> leaves[0].cumulativeAmount == leaves[0].fillAmount > 0)
    && forall i :: 0 < i < |leaves| ==> Follows(leaves[i - 1], leaves[i])
  }

  predicate Follows(previous: Leaf, leaf: Leaf) {
    leaf.fillAmount > 0 && leaf.cumulativeAmount == previous.cumulativeAmount + leaf.fillAmount
  }

  /** Fragments open in order: a fill is in the last fill's fragment, or in the next one with that fragment exactly full. */
  lemma FragmentsOpenInOrder(leaves: seq<Leaf>, fills: seq<Fill>)
    requires Cumulative(leaves) && Accepted(leaves, fills) && fills != []
    ensures var last := fills[|fills| - 1];
            var before := fills[..|fills| - 1];
            if before == [] then last.index == 0
            else
              var previous := before[|before| - 1];
              && 0 <= previous.index < |leaves|
              && (last.index == previous.index
                  || (last.index == previous.index + 1 && Filled(before) == leaves[previous.index].cumulativeAmount))
  {
    var before := fills[..|fills| - 1];
    var last := fills[|fills| - 1];
    if before == [] {
      if last.index > 0 {
        CumulativeGrows(leaves, 0, last.index - 1);
      }
    } else {
      var previous := before[|before| - 1];
      FillsFit(leaves, before);
      if last.index < previous.index {
        CumulativeGrows(leaves, last.index, previous.index - 1);
      } else if last.index > previous.index + 1 {
        CumulativeGrows(leaves, previous.index + 1, last.index - 1);
      }
    }
  }

  lemma {:induction false} CumulativeGrows(leaves: seq<Leaf>, i: nat, j: nat)
    requires Cumulative(leaves) && i <= j < |leaves|
    ensures 0 < leaves[i].cumulativeAmount <= leaves[j].cumulativeAmount
    decreases j
  {
    if i < j {
      CumulativeGrows(leaves, i, j - 1);
      assert Follows(leaves[j - 1], leaves[j]);
    } else if i > 0 {
      CumulativeGrows(leaves, i - 1, i - 1);
      assert Follows(leaves[i - 1], leaves[i]);
    }
  }

  /** After any accepted run the sum lies inside the last fill's fragment. */
  lemma FillsFit(leaves: seq<Leaf>, fills: seq<Fill>)
    requires Cumulative(leaves) && Accepted(leaves, fills) && fills != []
    ensures var k := fills[|fills| - 1].index;
            && 0 <= k < |leaves|
            && (if k == 0 then 0 else leaves[k - 1].cumulativeAmount) < Filled(fills) <= leaves[k].cumulativeAmount
  {
    FilledIsNonNegative(leaves, fills[..|fills| - 1]);
  }

  lemma {:induction false} FilledIsNonNegative(leaves: seq<Leaf>, fills: seq<Fill>)
    requires Accepted(leaves, fills)
    ensures Filled(fills) >= 0
  {
    if fills != [] {
      FilledIsNonNegative(leaves, fills[..|fills| - 1]);
    }
  }

  /**
   * In any accepted run every fragment before the last one filled is filled exactly, the last
   * one by the rest, later ones not at all; and the sum never exceeds the last cumulative amount.
   */
  lemma {:induction false} FragmentsFillExactly(leaves: seq<Leaf>, fills: seq<Fill>, i: nat)
    requires Cumulative(leaves) && Accepted(leaves, fills) && fills != [] && i < |leaves|
    ensures var k := fills[|fills| - 1].index;
            && FilledOf(fills, i) ==
                 (if i < k then leaves[i].fillAmount
                  else if i == k then Filled(fills) - (if k == 0 then 0 else leaves[k - 1].cumulativeAmount)
                  else 0)
            && Filled(fills) <= leaves[|leaves| - 1].cumulativeAmount
  {
    var n := |fills| - 1;
    var before := fills[..n];
    FillsFit(leaves, fills);
    CumulativeGrows(leaves, fills[n].index, |leaves| - 1);
    FragmentsOpenInOrder(leaves, fills);
    if n > 0 {
      FragmentsFillExactly(leaves, before, i);
    }
  }

  lemma {:induction false} EqualPartsAreCumulative(leaves: seq<Leaf>, part: int)
    requires part > 0
    requires forall i :: 0 <= i < |leaves| ==> leaves[i].fillAmount == part && leaves[i].cumulativeAmount == Parts(part, i + 1)
    ensures Cumulative(leaves)
  {
    assert Parts(part, 1) == Parts(part, 0) + part;
    forall i | 0 < i < |leaves|
      ensures Follows(leaves[i - 1], leaves[i])
    {
      assert Parts(part, i + 1) == Parts(part, i) + part;
    }
  }

  lemma OneUnitEach(total: nat, n: nat)
    requires total >= n > 0
    ensures TruncDiv(total, n) >= 1 && TruncMod(total, n) == total % n
  {
    TimesIsMonotone(total / n + 1, 1, n);
  }

  lemma FragmentsAreCumulative(hashes: seq<string>, total: nat)
    requires hashes != [] && 100 % |hashes| == 0 && total >= |hashes|
    ensures var leaves := LeavesOf(GenerateSecrets(hashes), total);
            |leaves| == |hashes| && Cumulative(leaves) && leaves[|leaves| - 1].cumulativeAmount == total - total % |hashes|
  {
    EqualFragments(hashes, total);
    OneUnitEach(total, |hashes|);
    EqualPartsAreCumulative(LeavesOf(GenerateSecrets(hashes), total), TruncDiv(total, |hashes|));
  }

  lemma NothingFitsAnEmptyFragment(hashes: seq<string>, total: int, fills: seq<Fill>)
    requires hashes != [] && 100 % |hashes| == 0 && total < |hashes|
    ensures Accepted(LeavesOf(GenerateSecrets(hashes), total), fills) ==> fills == []
  {
    var n, leaves := |hashes|, LeavesOf(GenerateSecrets(hashes), total);
    var part := TruncDiv(total, n);
    PartIsNotPositive(total, n);
    if Accepted(leaves, fills) && fills != [] {
      var k := fills[|fills| - 1].index;
      EqualFragments(hashes, total);
      PartsMultiply(part, k + 1);
      TimesIsMonotone(part, 0, k + 1);
      FilledIsNonNegative(leaves, fills[..|fills| - 1]);
      assert false;
    }
  }

  lemma PartIsNotPositive(total: int, n: nat)
    requires n > 0 && total < n
    ensures TruncDiv(total, n) <= 0
  {
    if total >= 0 {
      QuotientIsUnique(total, n, 0, total);
    } else {
      DivideAndRest(-total, n);
      if -total / n < 0 {
        TimesIsMonotone(-total / n, -1, n);
      }
    }
  }

  lemma FillsStayBelowTheLastCumulative(leaves: seq<Leaf>, fills: seq<Fill>)
    requires Cumulative(leaves) && Accepted(leaves, fills) && leaves != []
    ensures Filled(fills) <= leaves[|leaves| - 1].cumulativeAmount
  {
    if fills == [] {
      CumulativeGrows(leaves, 0, |leaves| - 1);
    } else {
      FragmentsFillExactly(leaves, fills, 0);
    }
  }

  /** No accepted run fills more than the order less its remainder, and an order of a negative total takes none. */
  lemma FillsNeverExceedTheOrder(hashes: seq<string>, total: int, fills: seq<Fill>)
    requires hashes != [] && 100 % |hashes| == 0 && Accepted(LeavesOf(GenerateSecrets(hashes), total), fills)
    ensures Filled(fills) <= if total >= 0 then total - total % |hashes| else 0
  {
    if total >= |hashes| {
      FragmentsAreCumulative(hashes, total);
      FillsStayBelowTheLastCumulative(LeavesOf(GenerateSecrets(hashes), total), fills);
    } else {
      NothingFitsAnEmptyFragment(hashes, total, fills);
      if total >= 0 {
        DivideAndRest(total, |hashes|);
      }
    }
  }
}
