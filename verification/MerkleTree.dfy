/** The Merkle primitives of the audit log. The bottom-up loops are proved against the
    recursive tree hash and audit path of sections 2.1 and 2.1.1 of RFC 6962. */
module MerkleTree {
  import opened Hashing

  const MAX_PROOF_SIBLINGS := 64

  datatype Side = Left | Right

  /** One entry of a proof as it arrives: an object with exactly the keys `side` and
      `hash`, or anything else. */
  datatype ProofNode = ProofNode(side: Side, hash: HashText) | MalformedNode

  // ----- hash inputs and their domains -----

  function LeafInput(eventDigest: Digest): Bytes { [0] + eventDigest }

  function NodeInput(left: Digest, right: Digest): Bytes { [1] + left + right }

  function LeafHash(sha: Sha256, eventDigest: Digest): Digest { sha(LeafInput(eventDigest)) }

  function ParentHash(sha: Sha256, left: Digest, right: Digest): Digest { sha(NodeInput(left, right)) }

  lemma LeafInputInjective(a: Digest, b: Digest)
    requires LeafInput(a) == LeafInput(b)
    ensures a == b
  {
    assert a == LeafInput(a)[1..] && b == LeafInput(b)[1..];
  }

  lemma NodeInputInjective(l: Digest, r: Digest, l': Digest, r': Digest)
    requires NodeInput(l, r) == NodeInput(l', r')
    ensures l == l' && r == r'
  {
    assert l == NodeInput(l, r)[1..33] && l' == NodeInput(l', r')[1..33];
    assert r == NodeInput(l, r)[33..] && r' == NodeInput(l', r')[33..];
  }

  // ----- RFC 6962, section 2.1: the tree hash by splitting -----

  /** The largest power of two smaller than `n`, grown from `k`. */
  function SplitFrom(n: nat, k: nat): (r: nat)
    requires 1 <= k < n
    ensures k <= r < n <= 2 * r
    decreases n - k
  {
    if 2 * k < n then SplitFrom(n, 2 * k) else k
  }

  function Split(n: nat): (k: nat)
    requires n > 1
    ensures 1 <= k < n <= 2 * k
  {
    SplitFrom(n, 1)
  }

  function TreeHash(sha: Sha256, leaves: seq<Digest>): Digest
    requires |leaves| > 0
    decreases |leaves|
  {
    if |leaves| == 1 then leaves[0] else
      var k := Split(|leaves|);
      ParentHash(sha, TreeHash(sha, leaves[..k]), TreeHash(sha, leaves[k..]))
  }

  /** Section 2.1.1: the audit path, from the leaf upwards, each entry with the side on
      which the sibling stands. */
  function AuditPath(sha: Sha256, leaves: seq<Digest>, index: nat): seq<ProofNode>
    requires index < |leaves|
    decreases |leaves|
  {
    if |leaves| == 1 then [] else
      var k := Split(|leaves|);
      if index < k then
        AuditPath(sha, leaves[..k], index) + [ProofNode(Right, Hex(TreeHash(sha, leaves[k..])))]
      else
        AuditPath(sha, leaves[k..], index - k) + [ProofNode(Left, Hex(TreeHash(sha, leaves[..k])))]
  }

  // ----- one level of the bottom-up construction -----

  /** Pairs neighbours; an unpaired last node is promoted unchanged. */
  function PairLevel(sha: Sha256, level: seq<Digest>): (next: seq<Digest>)
    ensures |next| == (|level| + 1) / 2
  {
    if |level| <= 1 then level
    else [ParentHash(sha, level[0], level[1])] + PairLevel(sha, level[2..])
  }

  lemma {:induction false} PairLevelAt(sha: Sha256, level: seq<Digest>, i: nat)
    requires 2 * i < |level|
    ensures PairLevel(sha, level)[i] ==
            if 2 * i + 1 == |level| then level[2 * i] else ParentHash(sha, level[2 * i], level[2 * i + 1])
  {
    if i > 0 {
      PairLevelAt(sha, level[2..], i - 1);
    }
  }

  /** The sibling that a proof records at this level, if there is one. */
  function SiblingAt(level: seq<Digest>, index: nat): seq<ProofNode>
    requires index < |level|
  {
    if index % 2 == 1 then [ProofNode(Left, Hex(level[index - 1]))]
    else if index + 1 < |level| then [ProofNode(Right, Hex(level[index + 1]))]
    else []
  }

  lemma {:induction false} SplitFromHalves(n: nat, k: nat)
    requires 1 <= k < n && n > 2
    ensures 2 * k < n ==> SplitFrom(n, 2 * k) == 2 * SplitFrom((n + 1) / 2, k)
    decreases n - k
  {
    if 2 * k < n {
      assert k < (n + 1) / 2;
      if 4 * k < n {
        SplitFromHalves(n, 2 * k);
      }
    }
  }

  lemma SplitHalves(n: nat)
    requires n > 2
    ensures Split(n) == 2 * Split((n + 1) / 2)
  {
    SplitFromHalves(n, 1);
  }

  lemma {:induction false} PairLevelSplits(sha: Sha256, leaves: seq<Digest>, h: nat)
    requires 2 * h <= |leaves|
    ensures PairLevel(sha, leaves) == PairLevel(sha, leaves[..2 * h]) + PairLevel(sha, leaves[2 * h..])
    ensures |PairLevel(sha, leaves[..2 * h])| == h
    ensures |PairLevel(sha, leaves[2 * h..])| == (|leaves| + 1) / 2 - h
  {
    if h == 0 {
      assert leaves[0..] == leaves && leaves[..0] == [];
    } else {
      var a, b, rest := leaves[..2 * h], leaves[2 * h..], leaves[2..];
      PairLevelSplits(sha, rest, h - 1);
      assert a[2..] == rest[..2 * (h - 1)] && b == rest[2 * (h - 1)..];
      assert a[0] == leaves[0] && a[1] == leaves[1];
      calc {
        PairLevel(sha, leaves);
        [ParentHash(sha, leaves[0], leaves[1])] + (PairLevel(sha, a[2..]) + PairLevel(sha, b));
        ([ParentHash(sha, leaves[0], leaves[1])] + PairLevel(sha, a[2..])) + PairLevel(sha, b);
        PairLevel(sha, a) + PairLevel(sha, b);
      }
    }
  }

  lemma TreeHashOfHalves(sha: Sha256, a: seq<Digest>, b: seq<Digest>, n: nat)
    requires |a| > 0 && |b| > 0 && n == |a| + |b| && |a| == Split(n)
    ensures TreeHash(sha, a + b) == ParentHash(sha, TreeHash(sha, a), TreeHash(sha, b))
  {
    assert (a + b)[..|a|] == a && (a + b)[|a|..] == b;
  }

  lemma AuditPathOfHalves(sha: Sha256, a: seq<Digest>, b: seq<Digest>, n: nat, index: nat)
    requires |a| > 0 && |b| > 0 && n == |a| + |b| && |a| == Split(n) && index < n
    ensures index < |a| ==>
              AuditPath(sha, a + b, index) == AuditPath(sha, a, index) + [ProofNode(Right, Hex(TreeHash(sha, b)))]
    ensures index >= |a| ==>
              AuditPath(sha, a + b, index) == AuditPath(sha, b, index - |a|) + [ProofNode(Left, Hex(TreeHash(sha, a)))]
  {
    var leaves := a + b;
    assert leaves[..|a|] == a && leaves[|a|..] == b && |leaves| == n;
    if index < |a| {
      assert AuditPath(sha, leaves, index) == AuditPath(sha, leaves[..|a|], index) + [ProofNode(Right, Hex(TreeHash(sha, leaves[|a|..])))];
    } else {
      assert AuditPath(sha, leaves, index) == AuditPath(sha, leaves[|a|..], index - |a|) + [ProofNode(Left, Hex(TreeHash(sha, leaves[..|a|])))];
    }
  }

  /** Pairing one level does not change the tree hash. */
  lemma {:induction false} PairingKeepsTreeHash(sha: Sha256, leaves: seq<Digest>)
    requires |leaves| > 0
    ensures TreeHash(sha, PairLevel(sha, leaves)) == TreeHash(sha, leaves)
    decreases |leaves|
  {
    if |leaves| == 2 {
      assert leaves[..1] == [leaves[0]] && leaves[1..] == [leaves[1]];
    } else if |leaves| > 2 {
      var h := Split((|leaves| + 1) / 2);
      SplitHalves(|leaves|);
      var a, b := leaves[..2 * h], leaves[2 * h..];
      PairLevelSplits(sha, leaves, h);
      PairingKeepsTreeHash(sha, a);
      PairingKeepsTreeHash(sha, b);
      TreeHashOfHalves(sha, a, b, |leaves|);
      TreeHashOfHalves(sha, PairLevel(sha, a), PairLevel(sha, b), (|leaves| + 1) / 2);
      assert leaves == a + b;
    }
  }

  /** The audit path starts with this level's sibling and goes on with the path of the
      paired level. */
  ghost predicate PathSteps(sha: Sha256, leaves: seq<Digest>, index: nat)
    requires index < |leaves|
  {
    AuditPath(sha, leaves, index) == SiblingAt(leaves, index) + AuditPath(sha, PairLevel(sha, leaves), index / 2)
  }

  lemma {:induction false} AuditPathByLevel(sha: Sha256, leaves: seq<Digest>, index: nat)
    requires index < |leaves|
    ensures PathSteps(sha, leaves, index)
    decreases |leaves|
  {
    if |leaves| == 1 {
    } else if |leaves| == 2 {
      assert leaves[..1] == [leaves[0]] && leaves[1..] == [leaves[1]];
    } else {
      var h := Split((|leaves| + 1) / 2);
      SplitHalves(|leaves|);
      var a, b := leaves[..2 * h], leaves[2 * h..];
      if index < 2 * h {
        AuditPathByLevel(sha, a, index);
      } else {
        AuditPathByLevel(sha, b, index - 2 * h);
      }
      PathStepsFromHalf(sha, leaves, h, index);
    }
  }

  lemma PathStepsFromHalf(sha: Sha256, leaves: seq<Digest>, h: nat, index: nat)
    requires |leaves| > 2 && h == Split((|leaves| + 1) / 2) && 2 * h < |leaves| && index < |leaves|
    requires index < 2 * h ==> PathSteps(sha, leaves[..2 * h], index)
    requires index >= 2 * h ==> PathSteps(sha, leaves[2 * h..], index - 2 * h)
    ensures PathSteps(sha, leaves, index)
  {
    SplitHalves(|leaves|);
    var a, b := leaves[..2 * h], leaves[2 * h..];
    assert leaves == a + b;
    var a', b' := PairLevel(sha, a), PairLevel(sha, b);
    PairLevelSplits(sha, leaves, h);
    PairingKeepsTreeHash(sha, a);
    PairingKeepsTreeHash(sha, b);
    AuditPathOfHalves(sha, a, b, |leaves|, index);
    AuditPathOfHalves(sha, a', b', (|leaves| + 1) / 2, index / 2);
    SiblingWithinHalf(a, b, h, index);
    var i := if index < 2 * h then index else index - 2 * h;
    var half := if index < 2 * h then a else b;
    var last := if index < 2 * h then ProofNode(Right, Hex(TreeHash(sha, b)))
                else ProofNode(Left, Hex(TreeHash(sha, a)));
    var path := AuditPath(sha, PairLevel(sha, half), i / 2);
    assert AuditPath(sha, leaves, index) == AuditPath(sha, half, i) + [last];
    assert AuditPath(sha, half, i) == SiblingAt(leaves, index) + path;
    assert AuditPath(sha, PairLevel(sha, leaves), index / 2) == path + [last];
    ConcatAssociates(SiblingAt(leaves, index), path, [last]);
  }

  lemma ConcatAssociates(a: seq<ProofNode>, b: seq<ProofNode>, c: seq<ProofNode>)
    ensures (a + b) + c == a + (b + c)
  {
  }

  lemma SiblingWithinHalf(a: seq<Digest>, b: seq<Digest>, h: nat, index: nat)
    requires |a| == 2 * h && index < |a| + |b|
    ensures index < 2 * h ==> SiblingAt(a + b, index) == SiblingAt(a, index)
    ensures index >= 2 * h ==> SiblingAt(a + b, index) == SiblingAt(b, index - 2 * h)
    ensures index >= 2 * h ==> (index - 2 * h) / 2 == index / 2 - h
  {
    if index < 2 * h {
      assert index % 2 == 0 ==> index + 1 < 2 * h;
    } else {
      var i := index - 2 * h;
      assert i % 2 == index % 2 && (a + b)[index] == b[i];
    }
  }

  // ----- path length -----

  function CeilLog2(n: nat): nat {
    if n <= 1 then 0 else 1 + CeilLog2((n + 1) / 2)
  }

  function Pow2(e: nat): (p: nat)
    ensures p > 0
  {
    if e == 0 then 1 else 2 * Pow2(e - 1)
  }

  lemma {:induction false} CeilLog2Characterised(n: nat, e: nat)
    ensures CeilLog2(n) <= e <==> n <= Pow2(e)
    decreases e
  {
    if n > 1 && e > 0 {
      CeilLog2Characterised((n + 1) / 2, e - 1);
    }
  }

  lemma {:induction false} AuditPathLength(sha: Sha256, leaves: seq<Digest>, index: nat)
    requires index < |leaves|
    ensures |AuditPath(sha, leaves, index)| <= CeilLog2(|leaves|)
    decreases |leaves|
  {
    if |leaves| > 1 {
      AuditPathByLevel(sha, leaves, index);
      AuditPathLength(sha, PairLevel(sha, leaves), index / 2);
    }
  }

  /** The sibling bound never rejects a proof built for up to 2^64 leaves; a batch has at
      most 4096 leaves and its proofs at most twelve siblings. */
  lemma SiblingBoundNeverFires(sha: Sha256, leaves: seq<Digest>, index: nat)
    requires index < |leaves|
    ensures |leaves| <= Pow2(MAX_PROOF_SIBLINGS) ==> |AuditPath(sha, leaves, index)| <= MAX_PROOF_SIBLINGS
    ensures |leaves| <= 4096 ==> |AuditPath(sha, leaves, index)| <= 12
  {
    AuditPathLength(sha, leaves, index);
    CeilLog2Characterised(|leaves|, MAX_PROOF_SIBLINGS);
    CeilLog2Characterised(|leaves|, 12);
    assert Pow2(12) == 4096 by {
      assert Pow2(4) == 16;
      assert Pow2(8) == 256;
    }
  }

  // ----- the loops -----

  /** Decodes a list of stored leaf hashes; one malformed entry is an error. */
  function DecodeAll(texts: seq<HashText>): (r: Option<seq<Digest>>)
    ensures r.Some? <==> forall i :: 0 <= i < |texts| ==> texts[i].Hex?
    ensures r.Some? ==> |r.value| == |texts|
    ensures r.Some? ==> forall i :: 0 <= i < |texts| ==> texts[i] == Hex(r.value[i])
  {
    if texts == [] then Some([])
    else if texts[0].Malformed? then None
    else
      var rest := DecodeAll(texts[1..]);
      if rest.None? then None else Some([texts[0].digest] + rest.value)
  }

  method NextLevel(sha: Sha256, level: seq<Digest>) returns (next: seq<Digest>)
    ensures next == PairLevel(sha, level)
  {
    next := [];
    var index := 0;
    while index < |level|
      invariant index <= |level| + 1
      invariant index > |level| ==> next == PairLevel(sha, level)
      invariant index <= |level| ==> next + PairLevel(sha, level[index..]) == PairLevel(sha, level)
    {
      PairLevelUnfolds(sha, level, index);
      if index + 1 == |level| {
        next := next + [level[index]];
      } else {
        next := next + [ParentHash(sha, level[index], level[index + 1])];
      }
      index := index + 2;
    }
  }

  lemma PairLevelUnfolds(sha: Sha256, level: seq<Digest>, index: nat)
    requires index < |level|
    ensures index + 1 == |level| ==> PairLevel(sha, level[index..]) == [level[index]]
    ensures index + 1 < |level| ==>
              forall front: seq<Digest> :: front + PairLevel(sha, level[index..]) ==
                (front + [ParentHash(sha, level[index], level[index + 1])]) + PairLevel(sha, level[index + 2..])
  {
    assert index + 1 < |level| ==> level[index..][2..] == level[index + 2..];
  }

  method BuildMerkleRoot(sha: Sha256, leaves: seq<HashText>) returns (r: Option<Digest>)
    ensures r.Some? <==> leaves != [] && DecodeAll(leaves).Some?
    ensures r.Some? ==> r.value == TreeHash(sha, DecodeAll(leaves).value)
  {
    var decoded := DecodeAll(leaves);
    if leaves == [] || decoded.None? { return None; }
    var level := decoded.value;
    while |level| > 1
      invariant |level| > 0
      invariant TreeHash(sha, level) == TreeHash(sha, decoded.value)
      decreases |level|
    {
      PairingKeepsTreeHash(sha, level);
      level := NextLevel(sha, level);
    }
    r := Some(level[0]);
  }

  method BuildMerkleProof(sha: Sha256, leaves: seq<HashText>, leafIndex: int) returns (r: Option<seq<ProofNode>>)
    ensures r.Some? ==> 0 <= leafIndex < |leaves| && DecodeAll(leaves).Some?
    ensures r.Some? ==> r.value == AuditPath(sha, DecodeAll(leaves).value, leafIndex)
    ensures 0 <= leafIndex < |leaves| <= Pow2(MAX_PROOF_SIBLINGS) && DecodeAll(leaves).Some? ==> r.Some?
  {
    var decoded := DecodeAll(leaves);
    if !(0 <= leafIndex < |leaves|) || decoded.None? { return None; }
    var level, index, siblings := decoded.value, leafIndex, [];
    while |level| > 1
      invariant 0 <= index < |level|
      invariant siblings + AuditPath(sha, level, index) == AuditPath(sha, decoded.value, leafIndex)
      decreases |level|
    {
      AuditPathByLevel(sha, level, index);
      ghost var before := siblings;
      if index % 2 == 1 {
        siblings := siblings + [ProofNode(Left, Hex(level[index - 1]))];
      } else if index + 1 < |level| {
        siblings := siblings + [ProofNode(Right, Hex(level[index + 1]))];
      }
      assert siblings == before + SiblingAt(level, index);
      ConcatAssociates(before, SiblingAt(level, index), AuditPath(sha, PairLevel(sha, level), index / 2));
      level := NextLevel(sha, level);
      index := index / 2;
    }
    SiblingBoundNeverFires(sha, decoded.value, leafIndex);
    if |siblings| > MAX_PROOF_SIBLINGS { return None; }
    r := Some(siblings);
  }

  // ----- verification -----

  function StepInput(current: Digest, sibling: ProofNode): Bytes
    requires sibling.ProofNode? && sibling.hash.Hex?
  {
    if sibling.side == Left then NodeInput(sibling.hash.digest, current)
    else NodeInput(current, sibling.hash.digest)
  }

  /** The root that a proof implies for a leaf at a position among `width` leaves; None when
      the proof does not have exactly the shape that the position demands. */
  function ImpliedRoot(sha: Sha256, current: Digest, index: nat, width: nat, siblings: seq<ProofNode>): Option<Digest>
    requires index < width
    decreases width
  {
    if width == 1 then (if siblings == [] then Some(current) else None)
    else if index % 2 == 0 && index + 1 == width then
      ImpliedRoot(sha, current, index / 2, (width + 1) / 2, siblings)
    else if siblings == [] || siblings[0].MalformedNode? || siblings[0].hash.Malformed? then None
    else if siblings[0].side != (if index % 2 == 1 then Left else Right) then None
    else
      ImpliedRoot(sha, sha(StepInput(current, siblings[0])), index / 2, (width + 1) / 2, siblings[1..])
  }

  predicate ProofAccepted(sha: Sha256, leaf: HashText, leafIndex: int, leafCount: int, siblings: seq<ProofNode>, root: HashText) {
    && 0 <= leafIndex < leafCount
    && leaf.Hex? && root.Hex?
    && |siblings| <= MAX_PROOF_SIBLINGS
    && ImpliedRoot(sha, leaf.digest, leafIndex, leafCount, siblings) == Some(root.digest)
  }

  method VerifyMerkleProof(sha: Sha256, leaf: HashText, leafIndex: int, leafCount: int,
                           siblings: seq<ProofNode>, root: HashText) returns (ok: bool)
    ensures ok <==> ProofAccepted(sha, leaf, leafIndex, leafCount, siblings, root)
  {
    if !(0 <= leafIndex < leafCount) || leaf.Malformed? || root.Malformed? { return false; }
    if |siblings| > MAX_PROOF_SIBLINGS { return false; }
    var current: Digest, proofIndex, index, width := leaf.digest, 0, leafIndex, leafCount;
    while width > 1
      invariant 0 <= index < width && 0 <= proofIndex <= |siblings|
      invariant ImpliedRoot(sha, leaf.digest, leafIndex, leafCount, siblings) ==
                ImpliedRoot(sha, current, index, width, siblings[proofIndex..])
      decreases width
    {
      var expected := if index % 2 == 1 then Some(Left) else if index + 1 < width then Some(Right) else None;
      if expected.Some? {
        if proofIndex >= |siblings| { return false; }
        var node := siblings[proofIndex];
        assert siblings[proofIndex..][0] == node;
        assert siblings[proofIndex..][1..] == siblings[proofIndex + 1..];
        if node.MalformedNode? { return false; }
        if node.side != expected.value { return false; }
        if node.hash.Malformed? { return false; }
        current := if expected.value == Left then ParentHash(sha, node.hash.digest, current)
                   else ParentHash(sha, current, node.hash.digest);
        proofIndex := proofIndex + 1;
      }
      index := index / 2;
      width := (width + 1) / 2;
    }
    ok := proofIndex == |siblings| && current == root.digest;
  }

  lemma LonelyClimb(sha: Sha256, current: Digest, index: nat, width: nat, siblings: seq<ProofNode>)
    requires index + 1 == width > 1 && index % 2 == 0
    ensures ImpliedRoot(sha, current, index, width, siblings) == ImpliedRoot(sha, current, index / 2, (width + 1) / 2, siblings)
  {
  }

  lemma PairedClimb(sha: Sha256, current: Digest, index: nat, width: nat, sibling: ProofNode, rest: seq<ProofNode>)
    requires index < width && width > 1 && (index % 2 == 1 || index + 1 < width)
    requires sibling.ProofNode? && sibling.hash.Hex? && sibling.side == (if index % 2 == 1 then Left else Right)
    ensures ImpliedRoot(sha, current, index, width, [sibling] + rest) ==
            ImpliedRoot(sha, sha(StepInput(current, sibling)), index / 2, (width + 1) / 2, rest)
  {
    assert ([sibling] + rest)[1..] == rest;
  }

  /** Consuming this level's sibling turns a leaf into its parent on the paired level. */
  lemma ImpliedRootClimbs(sha: Sha256, leaves: seq<Digest>, index: nat, rest: seq<ProofNode>)
    requires index < |leaves| && |leaves| > 1
    ensures ImpliedRoot(sha, leaves[index], index, |leaves|, SiblingAt(leaves, index) + rest) ==
            ImpliedRoot(sha, PairLevel(sha, leaves)[index / 2], index / 2, (|leaves| + 1) / 2, rest)
  {
    hide ImpliedRoot, PairLevel;
    PairLevelAt(sha, leaves, index / 2);
    if index % 2 == 0 && index + 1 == |leaves| {
      assert SiblingAt(leaves, index) + rest == rest;
      LonelyClimb(sha, leaves[index], index, |leaves|, rest);
    } else {
      PairedClimb(sha, leaves[index], index, |leaves|, SiblingAt(leaves, index)[0], rest);
    }
  }

  /** Completeness: the audit path of a leaf leads to the tree hash. */
  lemma {:induction false} BuiltProofLeadsToRoot(sha: Sha256, leaves: seq<Digest>, index: nat)
    requires index < |leaves|
    ensures ImpliedRoot(sha, leaves[index], index, |leaves|, AuditPath(sha, leaves, index)) == Some(TreeHash(sha, leaves))
    decreases |leaves|
  {
    if |leaves| > 1 {
      var next := PairLevel(sha, leaves);
      AuditPathByLevel(sha, leaves, index);
      PairingKeepsTreeHash(sha, leaves);
      BuiltProofLeadsToRoot(sha, next, index / 2);
      ImpliedRootClimbs(sha, leaves, index, AuditPath(sha, next, index / 2));
    }
  }

  lemma BuiltProofAccepted(sha: Sha256, leaves: seq<Digest>, index: nat)
    requires index < |leaves| <= Pow2(MAX_PROOF_SIBLINGS)
    ensures ProofAccepted(sha, Hex(leaves[index]), index, |leaves|, AuditPath(sha, leaves, index), Hex(TreeHash(sha, leaves)))
  {
    BuiltProofLeadsToRoot(sha, leaves, index);
    SiblingBoundNeverFires(sha, leaves, index);
  }

  // ----- binding -----

  /** The node inputs hashed while pairing one level. */
  function LevelInputs(level: seq<Digest>): set<Bytes> {
    if |level| <= 1 then {} else {NodeInput(level[0], level[1])} + LevelInputs(level[2..])
  }

  /** Every node input that building the tree hashes. */
  function TreeInputs(sha: Sha256, leaves: seq<Digest>): set<Bytes>
    decreases |leaves|
  {
    if |leaves| <= 1 then {} else LevelInputs(leaves) + TreeInputs(sha, PairLevel(sha, leaves))
  }

  /** Every node input that checking a proof hashes. */
  function ProofInputs(sha: Sha256, current: Digest, index: nat, width: nat, siblings: seq<ProofNode>): set<Bytes>
    requires index < width
    decreases width
  {
    if width == 1 then {}
    else if index % 2 == 0 && index + 1 == width then
      ProofInputs(sha, current, index / 2, (width + 1) / 2, siblings)
    else if siblings == [] || siblings[0].MalformedNode? || siblings[0].hash.Malformed? then {}
    else
      {StepInput(current, siblings[0])}
      + ProofInputs(sha, sha(StepInput(current, siblings[0])), index / 2, (width + 1) / 2, siblings[1..])
  }

  lemma {:induction false} LevelInputAt(level: seq<Digest>, q: nat)
    requires 2 * q + 1 < |level|
    ensures NodeInput(level[2 * q], level[2 * q + 1]) in LevelInputs(level)
  {
    if q > 0 {
      LevelInputAt(level[2..], q - 1);
    }
  }

  lemma {:induction false} LevelInputsSplit(a: seq<Digest>, b: seq<Digest>, h: nat)
    requires |a| == 2 * h
    ensures LevelInputs(a + b) == LevelInputs(a) + LevelInputs(b)
  {
    if h == 0 {
      assert a + b == b;
    } else {
      LevelInputsSplit(a[2..], b, h - 1);
      assert (a + b)[2..] == a[2..] + b;
    }
  }

  /** A step and a node hash the same bytes only if they join the same two hashes. */
  lemma StepJoins(leaf: Digest, sibling: ProofNode, left: Digest, right: Digest)
    requires sibling.ProofNode? && sibling.hash.Hex? && StepInput(leaf, sibling) == NodeInput(left, right)
    ensures if sibling.side == Left then leaf == right && sibling.hash.digest == left
            else leaf == left && sibling.hash.digest == right
  {
    hide NodeInput;
    if sibling.side == Left {
      NodeInputInjective(sibling.hash.digest, leaf, left, right);
    } else {
      NodeInputInjective(leaf, sibling.hash.digest, left, right);
    }
  }

  lemma SiblingOfNode(leaves: seq<Digest>, index: nat, q: nat, sibling: ProofNode)
    requires index < |leaves| && 2 * q + 1 < |leaves| && (index == 2 * q || index == 2 * q + 1)
    requires sibling == if index == 2 * q + 1 then ProofNode(Left, Hex(leaves[2 * q])) else ProofNode(Right, Hex(leaves[2 * q + 1]))
    ensures [sibling] == SiblingAt(leaves, index)
  {
  }

  lemma NodeCollides(sha: Sha256, leaves: seq<Digest>, q: nat, mine: Bytes)
    requires 2 * q + 1 < |leaves|
    requires var theirs := NodeInput(leaves[2 * q], leaves[2 * q + 1]); sha(mine) == sha(theirs) && mine != theirs
    ensures CollisionBetween(sha, {mine}, TreeInputs(sha, leaves))
  {
    hide NodeInput;
    LevelInputAt(leaves, q);
    var theirs := NodeInput(leaves[2 * q], leaves[2 * q + 1]);
    assert mine in {mine} && theirs in TreeInputs(sha, leaves);
  }

  /** One level of the binding argument: a parent that agrees with the tree has the
      tree's children, or its input and the tree's input collide. */
  lemma ParentIsBinding(sha: Sha256, leaves: seq<Digest>, leaf: Digest, index: nat, sibling: ProofNode)
    requires index < |leaves| && (index % 2 == 1 || index + 1 < |leaves|)
    requires sibling.ProofNode? && sibling.hash.Hex? && sibling.side == (if index % 2 == 1 then Left else Right)
    requires sha(StepInput(leaf, sibling)) == PairLevel(sha, leaves)[index / 2]
    ensures (leaf == leaves[index] && [sibling] == SiblingAt(leaves, index))
         || CollisionBetween(sha, {StepInput(leaf, sibling)}, TreeInputs(sha, leaves))
  {
    hide PairLevel, NodeInput, StepInput, TreeInputs, CollisionBetween, SiblingAt;
    var q := index / 2;
    assert index == 2 * q + index % 2;
    PairLevelAt(sha, leaves, q);
    if StepInput(leaf, sibling) == NodeInput(leaves[2 * q], leaves[2 * q + 1]) {
      StepJoins(leaf, sibling, leaves[2 * q], leaves[2 * q + 1]);
      SiblingOfNode(leaves, index, q, sibling);
    } else {
      NodeCollides(sha, leaves, q, StepInput(leaf, sibling));
    }
  }

  /** Binding: a proof accepted against the root of `leaves` proves the leaf that stands at
      that index, by the built siblings, or checking it and building the tree exhibit a
      collision. */
  lemma {:induction false} AcceptedProofIsBinding(sha: Sha256, leaves: seq<Digest>, leaf: Digest, index: nat, siblings: seq<ProofNode>)
    requires index < |leaves|
    requires ImpliedRoot(sha, leaf, index, |leaves|, siblings) == Some(TreeHash(sha, leaves))
    ensures (leaf == leaves[index] && siblings == AuditPath(sha, leaves, index))
         || CollisionBetween(sha, ProofInputs(sha, leaf, index, |leaves|, siblings), TreeInputs(sha, leaves))
    decreases |leaves|
  {
    if |leaves| > 1 {
      var next, q := PairLevel(sha, leaves), index / 2;
      PairingKeepsTreeHash(sha, leaves);
      AuditPathByLevel(sha, leaves, index);
      if index % 2 == 0 && index + 1 == |leaves| {
        PairLevelAt(sha, leaves, q);
        AcceptedProofIsBinding(sha, next, leaf, q, siblings);
        CollisionGrows(sha, ProofInputs(sha, leaf, q, |next|, siblings), TreeInputs(sha, next),
                       ProofInputs(sha, leaf, index, |leaves|, siblings), TreeInputs(sha, leaves));
      } else {
        var sibling, rest := siblings[0], siblings[1..];
        var mine := StepInput(leaf, sibling);
        AcceptedProofIsBinding(sha, next, sha(mine), q, rest);
        if sha(mine) == next[q] && rest == AuditPath(sha, next, q) {
          ParentIsBinding(sha, leaves, leaf, index, sibling);
        }
        BindingStep(sha, sha(mine) == next[q] && rest == AuditPath(sha, next, q),
                    leaf == leaves[index] && [sibling] == SiblingAt(leaves, index),
                    mine, ProofInputs(sha, sha(mine), q, |next|, rest), TreeInputs(sha, next),
                    ProofInputs(sha, leaf, index, |leaves|, siblings), TreeInputs(sha, leaves));
        HeadAndTail(siblings);
      }
    }
  }

  lemma HeadAndTail(s: seq<ProofNode>)
    requires s != []
    ensures s == [s[0]] + s[1..]
  {
  }

  lemma BindingStep(sha: Sha256, above: bool, here: bool, mine: Bytes,
                    xs: set<Bytes>, ys: set<Bytes>, all: set<Bytes>, all': set<Bytes>)
    requires above || CollisionBetween(sha, xs, ys)
    requires above ==> here || CollisionBetween(sha, {mine}, all')
    requires {mine} <= all && xs <= all && ys <= all'
    ensures (above && here) || CollisionBetween(sha, all, all')
  {
    CollisionGrows(sha, xs, ys, all, all');
    CollisionGrows(sha, {mine}, all', all, all');
  }

  // ----- the root of a list of event hashes -----

  function LeafHashes(sha: Sha256, events: seq<Digest>): (leaves: seq<Digest>)
    ensures |leaves| == |events|
    ensures forall i :: 0 <= i < |events| ==> leaves[i] == LeafHash(sha, events[i])
  {
    if events == [] then [] else [LeafHash(sha, events[0])] + LeafHashes(sha, events[1..])
  }

  function EventRoot(sha: Sha256, events: seq<Digest>): Digest
    requires events != []
  {
    TreeHash(sha, LeafHashes(sha, events))
  }

  function LeafInputs(events: seq<Digest>): set<Bytes> {
    if events == [] then {} else {LeafInput(events[0])} + LeafInputs(events[1..])
  }

  /** Every input hashed while computing the root of a list of event hashes. */
  function EventTreeInputs(sha: Sha256, events: seq<Digest>): set<Bytes> {
    LeafInputs(events) + TreeInputs(sha, LeafHashes(sha, events))
  }

  /** The bottom-up loop hashes everything that the recursive split hashes. */
  lemma {:induction false} TreeInputsOfHalves(sha: Sha256, a: seq<Digest>, b: seq<Digest>, n: nat)
    requires |a| > 0 && |b| > 0 && n == |a| + |b| && |a| == Split(n)
    ensures NodeInput(TreeHash(sha, a), TreeHash(sha, b)) in TreeInputs(sha, a + b)
    ensures TreeInputs(sha, a) <= TreeInputs(sha, a + b)
    ensures TreeInputs(sha, b) <= TreeInputs(sha, a + b)
    decreases n
  {
    if n == 2 {
      assert a + b == [a[0], b[0]];
    } else {
      var h := Split((n + 1) / 2);
      SplitHalves(n);
      PairLevelSplits(sha, a + b, h);
      assert (a + b)[..2 * h] == a && (a + b)[2 * h..] == b;
      var a', b' := PairLevel(sha, a), PairLevel(sha, b);
      PairingKeepsTreeHash(sha, a);
      PairingKeepsTreeHash(sha, b);
      TreeInputsOfHalves(sha, a', b', (n + 1) / 2);
      LevelInputsSplit(a, b, h);
    }
  }

  lemma {:induction false} LeafHashesOfHalves(sha: Sha256, events: seq<Digest>, k: nat)
    requires k <= |events|
    ensures LeafHashes(sha, events) == LeafHashes(sha, events[..k]) + LeafHashes(sha, events[k..])
  {
    if k == 0 {
      assert events[..0] == [] && events[0..] == events;
    } else {
      LeafHashesOfHalves(sha, events[1..], k - 1);
      assert events[1..][..k - 1] == events[..k][1..] && events[1..][k - 1..] == events[k..];
    }
  }

  lemma {:induction false} LeafInputsOfHalves(events: seq<Digest>, k: nat)
    requires k <= |events|
    ensures LeafInputs(events) == LeafInputs(events[..k]) + LeafInputs(events[k..])
  {
    if k == 0 {
      assert events[..0] == [] && events[0..] == events;
    } else {
      LeafInputsOfHalves(events[1..], k - 1);
      assert events[1..][..k - 1] == events[..k][1..] && events[1..][k - 1..] == events[k..];
    }
  }

  lemma EventTreeInputsOfHalves(sha: Sha256, events: seq<Digest>, k: nat)
    requires |events| > 1 && k == Split(|events|)
    ensures EventRoot(sha, events) == sha(NodeInput(EventRoot(sha, events[..k]), EventRoot(sha, events[k..])))
    ensures NodeInput(EventRoot(sha, events[..k]), EventRoot(sha, events[k..])) in EventTreeInputs(sha, events)
    ensures EventTreeInputs(sha, events[..k]) <= EventTreeInputs(sha, events)
    ensures EventTreeInputs(sha, events[k..]) <= EventTreeInputs(sha, events)
  {
    LeafHashesOfHalves(sha, events, k);
    LeafInputsOfHalves(events, k);
    var a, b := LeafHashes(sha, events[..k]), LeafHashes(sha, events[k..]);
    TreeInputsOfHalves(sha, a, b, |events|);
    TreeHashOfHalves(sha, a, b, |events|);
  }

  lemma SplitJoins(xs: seq<Digest>, k: nat)
    requires k <= |xs|
    ensures xs == xs[..k] + xs[k..]
  {
  }

  lemma BindingOfHalves(sha: Sha256, x1: seq<Digest>, x2: seq<Digest>, y1: seq<Digest>, y2: seq<Digest>,
                        in1: set<Bytes>, in2: set<Bytes>, in1': set<Bytes>, in2': set<Bytes>,
                        all: set<Bytes>, all': set<Bytes>)
    requires x1 == y1 || CollisionBetween(sha, in1, in1')
    requires x2 == y2 || CollisionBetween(sha, in2, in2')
    requires in1 <= all && in2 <= all && in1' <= all' && in2' <= all'
    ensures x1 + x2 == y1 + y2 || CollisionBetween(sha, all, all')
  {
    CollisionGrows(sha, in1, in1', all, all');
    CollisionGrows(sha, in2, in2', all, all');
  }

  /** Two lists of event hashes with the same root are the same list, of whatever lengths,
      or computing the two roots exhibits a collision. The separate leaf and node domains
      are what rules out a leaf that doubles as a node. */
  lemma {:induction false} EventRootIsBinding(sha: Sha256, xs: seq<Digest>, ys: seq<Digest>)
    requires xs != [] && ys != [] && EventRoot(sha, xs) == EventRoot(sha, ys)
    ensures xs == ys || CollisionBetween(sha, EventTreeInputs(sha, xs), EventTreeInputs(sha, ys))
    decreases |xs|
  {
    var mine := TopInput(sha, xs);
    var theirs := TopInput(sha, ys);
    assert mine[0] == (if |xs| == 1 then 0 else 1) && theirs[0] == (if |ys| == 1 then 0 else 1);
    if mine != theirs {
    } else if |xs| == 1 {
      LeafInputInjective(xs[0], ys[0]);
      assert xs == [xs[0]] && ys == [ys[0]];
    } else {
      var k, m := Split(|xs|), Split(|ys|);
      var x1, x2, y1, y2 := xs[..k], xs[k..], ys[..m], ys[m..];
      NodeInputInjective(EventRoot(sha, x1), EventRoot(sha, x2), EventRoot(sha, y1), EventRoot(sha, y2));
      EventRootIsBinding(sha, x1, y1);
      EventRootIsBinding(sha, x2, y2);
      SplitJoins(xs, k);
      SplitJoins(ys, m);
      BindingOfHalves(sha, x1, x2, y1, y2, EventTreeInputs(sha, x1), EventTreeInputs(sha, x2),
                      EventTreeInputs(sha, y1), EventTreeInputs(sha, y2),
                      EventTreeInputs(sha, xs), EventTreeInputs(sha, ys));
    }
  }

  /** The last input hashed on the way to the root. */
  lemma TopInput(sha: Sha256, events: seq<Digest>) returns (top: Bytes)
    requires events != []
    ensures sha(top) == EventRoot(sha, events) && top in EventTreeInputs(sha, events)
    ensures |events| == 1 ==> top == LeafInput(events[0])
    ensures |events| > 1 ==> var k := Split(|events|);
              && top == NodeInput(EventRoot(sha, events[..k]), EventRoot(sha, events[k..]))
              && EventTreeInputs(sha, events[..k]) <= EventTreeInputs(sha, events)
              && EventTreeInputs(sha, events[k..]) <= EventTreeInputs(sha, events)
  {
    if |events| == 1 {
      top := LeafInput(events[0]);
    } else {
      var k := Split(|events|);
      EventTreeInputsOfHalves(sha, events, k);
      top := NodeInput(EventRoot(sha, events[..k]), EventRoot(sha, events[k..]));
    }
  }
}
