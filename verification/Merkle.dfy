/** Merkle aggregation of child roots and verification of inclusion proofs. */
module Merkle {
  import opened Common

  /** The hash of two concatenated hashes. */
  type PairHash = (Hash, Hash) -> Hash

  predicate Collide(h: PairHash, a: Hash, b: Hash, c: Hash, d: Hash) {
    h(a, b) == h(c, d) && (a != c || b != d)
  }

  /** No two different pairs have the same hash. */
  ghost predicate Injective(h: PairHash) {
    forall a, b, c, d :: !Collide(h, a, b, c, d)
  }

  /** There are such hashes, so the laws that ask for one are not empty. */
  lemma InjectiveExists()
    ensures Injective((a: Hash, b: Hash) => (a + b) * (a + b) + a)
  {
    var h: PairHash := (a: Hash, b: Hash) => (a + b) * (a + b) + a;
    forall a: Hash, b: Hash, c: Hash, d: Hash ensures !Collide(h, a, b, c, d) {
      SquaresApart(a + b, c + d);
      SquaresApart(c + d, a + b);
    }
  }

  lemma SquaresApart(x: nat, y: nat)
    ensures x < y ==> x * x + x < y * y
  {
    if x < y {
      assert (x + 1) * (x + 1) <= (x + 1) * y <= y * y;
    }
  }

  // ---- Powers of two and the bit test ----

  function Pow2(d: nat): (p: nat)
    ensures p >= 1
  {
    if d == 0 then 1 else 2 * Pow2(d - 1)
  }

  lemma {:induction false} Pow2Monotone(c: nat, d: nat)
    requires c <= d
    ensures Pow2(c) <= Pow2(d)
    ensures c < d ==> 2 * Pow2(c) <= Pow2(d)
  {
    if c < d {
      Pow2Monotone(c, d - 1);
    }
  }

  /** Bitwise and. */
  function And(a: nat, b: nat): nat {
    if a == 0 || b == 0 then 0
    else 2 * And(a / 2, b / 2) + if a % 2 == 1 && b % 2 == 1 then 1 else 0
  }

  /** The bit test for a power of two. */
  predicate SingleBit(n: nat)
    requires n >= 1
  {
    And(n, n - 1) == 0
  }

  /** The least depth whose full tree has room for `n` leaves. */
  function Depth(n: nat): (d: nat)
    requires n >= 1
    ensures n <= Pow2(d) < 2 * n
  {
    if n == 1 then 0 else 1 + Depth((n + 1) / 2)
  }

  lemma {:induction false} AndSelf(n: nat)
    ensures And(n, n) == n
  {
    if n > 0 {
      AndSelf(n / 2);
    }
  }

  /** The test `n & (n - 1) == 0` recognises exactly the powers of two. */
  lemma {:induction false} BitTest(n: nat)
    requires n >= 1
    ensures SingleBit(n) <==> n == Pow2(Depth(n))
  {
    if n % 2 == 1 {
      AndSelf(n / 2);
      assert (n - 1) / 2 == n / 2;
    } else {
      BitTest(n / 2);
      assert (n - 1) / 2 == n / 2 - 1 && (n + 1) / 2 == n / 2;
    }
  }

  /** Between a length and its power of two there is no other power of two. */
  lemma DepthStable(n: nat, m: nat)
    requires 1 <= n <= m <= Pow2(Depth(n))
    ensures Depth(m) == Depth(n)
  {
    if Depth(m) < Depth(n) {
      Pow2Monotone(Depth(m), Depth(n));
    } else if Depth(n) < Depth(m) {
      Pow2Monotone(Depth(n), Depth(m));
    }
  }

  // ---- The tree ----

  function Zeros(k: nat): (s: seq<Hash>)
    ensures |s| == k
  {
    if k == 0 then [] else Zeros(k - 1) + [ZERO_HASH]
  }

  /** The leaves of the tree: the hashes, then zero hashes up to a power of two. */
  function Padded(hashes: seq<Hash>): (s: seq<Hash>)
    requires hashes != []
    ensures |s| == Pow2(Depth(|hashes|))
  {
    hashes + Zeros(Pow2(Depth(|hashes|)) - |hashes|)
  }

  lemma {:induction false} ZerosAreZero(k: nat, i: nat)
    requires i < k
    ensures Zeros(k)[i] == ZERO_HASH
  {
    if i < k - 1 {
      ZerosAreZero(k - 1, i);
    }
  }

  /** The leaves are the hashes in their order and then nothing but zero hashes, up to the least power of
      two that holds them. */
  lemma PaddedLeaves(hashes: seq<Hash>, i: nat)
    requires hashes != [] && i < |Padded(hashes)|
    ensures Padded(hashes)[i] == if i < |hashes| then hashes[i] else ZERO_HASH
    ensures |hashes| <= |Padded(hashes)| < 2 * |hashes|
  {
    if i >= |hashes| {
      ZerosAreZero(Pow2(Depth(|hashes|)) - |hashes|, i - |hashes|);
    }
  }

  /** The Merkle root, top down: the pair hash of the roots of the two halves. */
  function Root(h: PairHash, leaves: seq<Hash>, d: nat): Hash
    requires |leaves| == Pow2(d)
    decreases d
  {
    if d == 0 then leaves[0]
    else
      var half := Pow2(d - 1);
      h(Root(h, leaves[..half], d - 1), Root(h, leaves[half..], d - 1))
  }

  /** One level up: neighbours hashed in pairs. */
  function Pairs(h: PairHash, s: seq<Hash>): (t: seq<Hash>)
    ensures 2 * |t| <= |s| < 2 * |t| + 2
  {
    if |s| < 2 then [] else [h(s[0], s[1])] + Pairs(h, s[2..])
  }

  lemma {:induction false} PairAt(h: PairHash, s: seq<Hash>, i: nat)
    requires 2 * i + 1 < |s|
    ensures Pairs(h, s)[i] == h(s[2 * i], s[2 * i + 1])
    decreases |s|
  {
    if i > 0 {
      PairAt(h, s[2..], i - 1);
    }
  }

  lemma {:induction false} PairsOfConcat(h: PairHash, s: seq<Hash>, t: seq<Hash>, k: nat)
    requires |s| == 2 * k
    ensures Pairs(h, s + t) == Pairs(h, s) + Pairs(h, t)
    decreases k
  {
    if k == 0 {
      assert s + t == t;
    } else {
      assert (s + t)[2..] == s[2..] + t;
      PairsOfConcat(h, s[2..], t, k - 1);
    }
  }

  lemma RootOfConcat(h: PairHash, s: seq<Hash>, t: seq<Hash>, d: nat)
    requires |s| == |t| == Pow2(d)
    ensures Root(h, s + t, d + 1) == h(Root(h, s, d), Root(h, t, d))
  {
    assert (s + t)[..Pow2(d)] == s && (s + t)[Pow2(d)..] == t;
  }

  /** Trees whose halves have the same roots have the same root. */
  lemma RootOfHalves(h: PairHash, a: seq<Hash>, b: seq<Hash>, left: seq<Hash>, right: seq<Hash>, d: nat)
    requires |a| == |b| == Pow2(d) && |left| == |right| == Pow2(d + 1)
    requires Root(h, a, d) == Root(h, left, d + 1) && Root(h, b, d) == Root(h, right, d + 1)
    ensures Root(h, a + b, d + 1) == Root(h, left + right, d + 2)
  {
    RootOfConcat(h, a, b, d);
    RootOfConcat(h, left, right, d + 1);
  }

  lemma PairsOfHalves(h: PairHash, s: seq<Hash>, left: seq<Hash>, right: seq<Hash>, d: nat)
    requires |left| == |right| == 2 * Pow2(d) && s == left + right
    requires Root(h, Pairs(h, left), d) == Root(h, left, d + 1)
    requires Root(h, Pairs(h, right), d) == Root(h, right, d + 1)
    ensures |Pairs(h, s)| == Pow2(d + 1) && Root(h, Pairs(h, s), d + 1) == Root(h, s, d + 2)
  {
    PairsOfConcat(h, left, right, Pow2(d));
    RootOfHalves(h, Pairs(h, left), Pairs(h, right), left, right, d);
  }

  /** Building one level bottom up leaves the top-down root unchanged. */
  lemma {:induction false} RootOfPairs(h: PairHash, s: seq<Hash>, d: nat)
    requires |s| == 2 * Pow2(d)
    ensures Root(h, Pairs(h, s), d) == Root(h, s, d + 1)
    decreases d
  {
    if d == 0 {
      PairAt(h, s, 0);
      assert s[..1] == [s[0]] && s[1..] == [s[1]];
    } else {
      var left, right := s[..Pow2(d)], s[Pow2(d)..];
      RootOfPairs(h, left, d - 1);
      RootOfPairs(h, right, d - 1);
      Rejoin(s, Pow2(d));
      PairsOfHalves(h, s, left, right, d - 1);
    }
  }

  lemma Rejoin(s: seq<Hash>, n: nat)
    requires n <= |s|
    ensures s[..n] + s[n..] == s
  {
  }

  lemma LevelUp(h: PairHash, s: seq<Hash>, d: nat)
    requires |s| == Pow2(d) > 1
    ensures d >= 1 && |s| % 2 == 0 && |Pairs(h, s)| == Pow2(d - 1) < |s|
    ensures Root(h, Pairs(h, s), d - 1) == Root(h, s, d)
  {
    RootOfPairs(h, s, d - 1);
  }

  // ---- Inclusion proofs ----

  /** The siblings of a leaf, from the leaf level upwards. */
  function SiblingPath(h: PairHash, s: seq<Hash>, d: nat, i: nat): (path: seq<Hash>)
    requires |s| == Pow2(d) && i < |s|
    ensures |path| == d
    decreases d
  {
    if d == 0 then [] else [s[Sibling(i)]] + SiblingPath(h, Pairs(h, s), d - 1, i / 2)
  }

  function Sibling(i: nat): nat {
    if i % 2 == 0 then i + 1 else i - 1
  }

  /** The direction bits of an index, lowest first; set where the node is a right child. */
  function Directions(d: nat, i: nat): (bits: seq<bool>)
    ensures |bits| == d
  {
    if d == 0 then [] else [i % 2 == 1] + Directions(d - 1, i / 2)
  }

  function Join(h: PairHash, right: bool, node: Hash, sibling: Hash): Hash {
    if right then h(sibling, node) else h(node, sibling)
  }

  /** The root a proof leads to. */
  function Climb(h: PairHash, leaf: Hash, path: seq<Hash>, bits: seq<bool>): Hash
    requires |path| <= |bits|
    decreases |path|
  {
    if path == [] then leaf
    else Climb(h, Join(h, bits[0], leaf, path[0]), path[1..], bits[1..])
  }

  /** A step of the verifier's loop, at the far end of the path. */
  lemma {:induction false} ClimbLast(h: PairHash, leaf: Hash, path: seq<Hash>, bits: seq<bool>, i: nat)
    requires i < |path| <= |bits|
    ensures Climb(h, leaf, path[..i + 1], bits) == Join(h, bits[i], Climb(h, leaf, path[..i], bits), path[i])
    decreases i
  {
    if i > 0 {
      ClimbLast(h, Join(h, bits[0], leaf, path[0]), path[1..], bits[1..], i - 1);
      assert path[..i + 1][1..] == path[1..][..i] && path[..i][1..] == path[1..][..i - 1];
    }
  }

  lemma ClimbFirst(h: PairHash, leaf: Hash, p: Hash, path: seq<Hash>, b: bool, bits: seq<bool>)
    requires |path| <= |bits|
    ensures Climb(h, leaf, [p] + path, [b] + bits) == Climb(h, Join(h, b, leaf, p), path, bits)
  {
    assert ([p] + path)[1..] == path && ([b] + bits)[1..] == bits;
  }

  /** A node and its sibling make their parent. */
  lemma JoinSiblings(h: PairHash, s: seq<Hash>, i: nat, k: nat)
    requires |s| == 2 * k && i < |s|
    ensures Sibling(i) < |s| && i / 2 < |Pairs(h, s)|
    ensures Join(h, i % 2 == 1, s[i], s[Sibling(i)]) == Pairs(h, s)[i / 2]
  {
    PairAt(h, s, i / 2);
  }

  /** Where the sibling path of a leaf leads. */
  function PathRoot(h: PairHash, s: seq<Hash>, d: nat, i: nat): Hash
    requires |s| == Pow2(d) && i < |s|
  {
    Climb(h, s[i], SiblingPath(h, s, d, i), Directions(d, i))
  }

  /** The path of a leaf is its sibling and then the path of its parent. */
  lemma PathOfParent(h: PairHash, s: seq<Hash>, d: nat, i: nat)
    requires d > 0 && |s| == Pow2(d) && i < |s|
    ensures i / 2 < |Pairs(h, s)| == Pow2(d - 1)
    ensures PathRoot(h, s, d, i) == PathRoot(h, Pairs(h, s), d - 1, i / 2)
  {
    JoinSiblings(h, s, i, Pow2(d - 1));
    ClimbFirst(h, s[i], s[Sibling(i)], SiblingPath(h, Pairs(h, s), d - 1, i / 2), i % 2 == 1, Directions(d - 1, i / 2));
  }

  lemma ParentsCount(h: PairHash, s: seq<Hash>, d: nat, i: nat)
    requires d > 0 && |s| == Pow2(d) && i < |s|
    ensures |Pairs(h, s)| == Pow2(d - 1) && i / 2 < Pow2(d - 1)
  {
  }

  lemma PathUp(h: PairHash, s: seq<Hash>, parents: seq<Hash>, d: nat, i: nat, parent: nat)
    requires d > 0 && |s| == Pow2(d) && i < |s| && parents == Pairs(h, s)
    requires parent == i / 2 && parent < |parents| == Pow2(d - 1)
    requires PathRoot(h, parents, d - 1, parent) == Root(h, parents, d - 1)
    ensures PathRoot(h, s, d, i) == Root(h, s, d)
  {
    PathOfParent(h, s, d, i);
    RootOfPairs(h, s, d - 1);
  }

  /** Completeness: the sibling path of every leaf leads to the root. */
  lemma {:induction false} PathReachesRoot(h: PairHash, s: seq<Hash>, d: nat, i: nat)
    requires |s| == Pow2(d) && i < |s|
    ensures PathRoot(h, s, d, i) == Root(h, s, d)
    decreases d
  {
    if d > 0 {
      var parents, parent := Pairs(h, s), i / 2;
      ParentsCount(h, s, d, i);
      PathReachesRoot(h, parents, d - 1, parent);
      PathUp(h, s, parents, d, i, parent);
    }
  }

  /** A parent determines its two children. */
  lemma ParentDeterminesChildren(h: PairHash, s: seq<Hash>, i: nat, k: nat, leaf: Hash, sibling: Hash)
    requires Injective(h) && |s| == 2 * k && i < |s| && i / 2 < |Pairs(h, s)|
    requires Join(h, i % 2 == 1, leaf, sibling) == Pairs(h, s)[i / 2]
    ensures leaf == s[i] && sibling == s[Sibling(i)]
  {
    JoinSiblings(h, s, i, k);
    assert !Collide(h, leaf, sibling, s[i], s[Sibling(i)]);
    assert !Collide(h, sibling, leaf, s[Sibling(i)], s[i]);
  }

  /** Soundness: with an injective pair hash, a full-depth path with the directions of an index reaches
      the root only from the leaf at that index, and only by its own siblings. */
  lemma {:induction false} OnlyTheLeaf(h: PairHash, s: seq<Hash>, d: nat, i: nat, leaf: Hash, path: seq<Hash>)
    requires Injective(h) && |s| == Pow2(d) && i < |s| && |path| == d
    requires Climb(h, leaf, path, Directions(d, i)) == Root(h, s, d)
    ensures leaf == s[i] && path == SiblingPath(h, s, d, i)
    decreases d
  {
    if d > 0 {
      var right, parents := i % 2 == 1, Pairs(h, s);
      ParentsCount(h, s, d, i);
      assert path == [path[0]] + path[1..];
      ClimbFirst(h, leaf, path[0], path[1..], right, Directions(d - 1, i / 2));
      RootOfPairs(h, s, d - 1);
      OnlyTheLeaf(h, parents, d - 1, i / 2, Join(h, right, leaf, path[0]), path[1..]);
      ParentDeterminesChildren(h, s, i, Pow2(d - 1), leaf, path[0]);
    }
  }

  /** With an injective pair hash, trees of one depth with one root have the same leaves. */
  lemma {:induction false} RootDeterminesLeaves(h: PairHash, s: seq<Hash>, t: seq<Hash>, d: nat)
    requires Injective(h) && |s| == |t| == Pow2(d) && Root(h, s, d) == Root(h, t, d)
    ensures s == t
    decreases d
  {
    if d > 0 {
      var half := Pow2(d - 1);
      assert !Collide(h, Root(h, s[..half], d - 1), Root(h, s[half..], d - 1), Root(h, t[..half], d - 1),
                      Root(h, t[half..], d - 1));
      RootDeterminesLeaves(h, s[..half], t[..half], d - 1);
      RootDeterminesLeaves(h, s[half..], t[half..], d - 1);
      assert s == s[..half] + s[half..] && t == t[..half] + t[half..];
    }
  }

  /** Bit `k` of an index is set exactly if the node on level `k` above the leaf is a right child. */
  lemma {:induction false} DirectionBits(d: nat, i: nat, k: nat)
    requires k < d
    ensures Directions(d, i)[k] <==> i / Pow2(k) % 2 == 1
    decreases d
  {
    if k > 0 {
      DirectionBits(d - 1, i / 2, k - 1);
      HalvingTwice(i, Pow2(k - 1));
    }
  }

  lemma HalvingTwice(i: nat, p: nat)
    requires p > 0
    ensures i / 2 / p == i / (2 * p)
  {
    var q, r := i / (2 * p), i % (2 * p);
    assert i / 2 == q * p + r / 2;
    assert 0 <= r / 2 < p;
    QuotientIs(q, p, r / 2);
  }

  lemma QuotientIs(q: nat, p: nat, r: nat)
    requires r < p
    ensures (q * p + r) / p == q
  {
    var t := (q * p + r) / p;
    assert t * p <= q * p + r < t * p + p;
    if t < q {
      Multiple(q - t, p);
    } else if q < t {
      Multiple(t - q, p);
    }
  }

  lemma Multiple(k: nat, p: nat)
    requires k >= 1
    ensures k * p >= p
  {
  }

  // ---- The source's loops ----

  /** The root of a list; the list itself is never changed. */
  function RootOfList(h: PairHash, hashes: seq<Hash>): Hash {
    if hashes == [] then ZERO_HASH else Root(h, Padded(hashes), Depth(|hashes|))
  }

  /** The bit test on a length that has grown from `n`, but not beyond its power of two. */
  lemma PaddedEnough(n: nat, m: nat)
    requires 1 <= n <= m <= Pow2(Depth(n))
    ensures SingleBit(m) <==> m == Pow2(Depth(n))
  {
    BitTest(m);
    DepthStable(n, m);
  }

  /** Appends zero hashes until the length is a power of two; the loop ends. */
  method PadToPowerOfTwo(hashes: seq<Hash>) returns (current: seq<Hash>)
    requires hashes != []
    ensures current == Padded(hashes)
  {
    ghost var n, full, k := |hashes|, Pow2(Depth(|hashes|)), 0;
    current := hashes;
    PaddedEnough(n, n);
    while !SingleBit(|current|)
      invariant current == hashes + Zeros(k) && n + k <= full
      invariant SingleBit(n + k) <==> n + k == full
      decreases full - |current|
    {
      current := current + [ZERO_HASH];
      k := k + 1;
      PaddedEnough(n, n + k);
    }
  }

  /** Hashes neighbours in pairs into a new buffer. */
  method NextLevel(h: PairHash, current: seq<Hash>) returns (next: seq<Hash>)
    requires |current| % 2 == 0
    ensures next == Pairs(h, current)
  {
    var buffer := new Hash[|current| / 2];
    var i := 0;
    while i < |current|
      invariant i % 2 == 0 && i <= |current|
      invariant forall k :: 0 <= k < i / 2 ==> buffer[k] == Pairs(h, current)[k]
    {
      PairAt(h, current, i / 2);
      buffer[i / 2] := h(current[i], current[i + 1]);
      i := i + 2;
    }
    return buffer[..];
  }

  /** The level-by-level construction computes the recursive Merkle root. */
  method ComputeRootHash(h: PairHash, hashes: seq<Hash>) returns (root: Hash)
    ensures root == RootOfList(h, hashes)
  {
    if |hashes| == 0 {
      return ZERO_HASH;
    }
    if |hashes| == 1 {
      return hashes[0];
    }
    var current := PadToPowerOfTwo(hashes);
    ghost var d := Depth(|hashes|);
    while |current| > 1
      invariant |current| == Pow2(d)
      invariant Root(h, current, d) == RootOfList(h, hashes)
      decreases |current|
    {
      LevelUp(h, current, d);
      current := NextLevel(h, current);
      d := d - 1;
    }
    return current[0];
  }

  datatype SPVProof = SPVProof(txHash: Hash, merkleRoot: Hash, merklePath: seq<Hash>, pathIndices: seq<bool>)

  /** Verifies an inclusion proof; with fewer direction bits than siblings the source panics, here None. */
  method VerifySPV(h: PairHash, proof: SPVProof) returns (r: Option<bool>)
    ensures r == if |proof.pathIndices| < |proof.merklePath| then None
                 else Some(Climb(h, proof.txHash, proof.merklePath, proof.pathIndices) == proof.merkleRoot)
  {
    var path, bits := proof.merklePath, proof.pathIndices;
    var currentHash := proof.txHash;
    for i := 0 to |path|
      invariant i <= |bits|
      invariant currentHash == Climb(h, proof.txHash, path[..i], bits)
    {
      if i >= |bits| {
        return None;
      }
      if |path| <= |bits| {
        ClimbLast(h, proof.txHash, path, bits, i);
      } else {
        ClimbLast(h, proof.txHash, path[..i + 1], bits, i);
        assert path[..i + 1][..i] == path[..i] && path[..i + 1][..i + 1] == path[..i + 1];
      }
      if bits[i] {
        currentHash := h(path[i], currentHash);
      } else {
        currentHash := h(currentHash, path[i]);
      }
    }
    assert path[..|path|] == path;
    return Some(currentHash == proof.merkleRoot);
  }

  /** The proof for position `i` of an aggregated list. */
  function ProofFor(h: PairHash, hashes: seq<Hash>, i: nat): SPVProof
    requires i < |hashes|
  {
    var d := Depth(|hashes|);
    SPVProof(hashes[i], RootOfList(h, hashes), SiblingPath(h, Padded(hashes), d, i), Directions(d, i))
  }

  /** What the verifier computes, as a predicate on proofs with enough direction bits. */
  predicate Verifies(h: PairHash, proof: SPVProof) {
    |proof.merklePath| <= |proof.pathIndices|
    && Climb(h, proof.txHash, proof.merklePath, proof.pathIndices) == proof.merkleRoot
  }

  /** Every list and every position: the proof is accepted, and with an injective pair hash it is the
      only accepted proof of full depth with the directions of that position. */
  lemma InclusionProofs(h: PairHash, hashes: seq<Hash>, i: nat, proof: SPVProof)
    requires i < |hashes| && proof.merkleRoot == RootOfList(h, hashes)
    requires |proof.merklePath| == Depth(|hashes|) && proof.pathIndices == Directions(Depth(|hashes|), i)
    ensures Verifies(h, ProofFor(h, hashes, i))
    ensures Injective(h) ==> (Verifies(h, proof) <==> proof == ProofFor(h, hashes, i))
  {
    var d, s := Depth(|hashes|), Padded(hashes);
    PathReachesRoot(h, s, d, i);
    if Injective(h) && Verifies(h, proof) {
      OnlyTheLeaf(h, s, d, i, proof.txHash, proof.merklePath);
    }
  }

  /** The order of the hashes, spelled out for three of them: pairs are hashed left to right, the missing
      fourth is the zero hash, and a proof puts the sibling first exactly where the bit is set. */
  lemma RootOfThree(h: PairHash, a: Hash, b: Hash, c: Hash)
    ensures RootOfList(h, [a, b, c]) == h(h(a, b), h(c, ZERO_HASH))
    ensures Verifies(h, SPVProof(b, h(h(a, b), h(c, ZERO_HASH)), [a, h(c, ZERO_HASH)], [true, false]))
    ensures Verifies(h, SPVProof(c, h(h(a, b), h(c, ZERO_HASH)), [ZERO_HASH, h(a, b)], [false, true]))
  {
    assert Depth(3) == 2 && Padded([a, b, c]) == [a, b, c, ZERO_HASH];
    RootOfConcat(h, [a], [b], 0);
    RootOfConcat(h, [c], [ZERO_HASH], 0);
    RootOfConcat(h, [a, b], [c, ZERO_HASH], 1);
    ClimbFirst(h, b, a, [h(c, ZERO_HASH)], true, [false]);
    ClimbFirst(h, c, ZERO_HASH, [h(a, b)], false, [true]);
  }
}
