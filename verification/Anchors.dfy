/** Exported proofs and anchors: a proof bundle that the service hands out is accepted by
    the offline verifier, and an accepted anchor fixes the whole history before it. */
module Anchors {
  import opened Hashing
  import opened Rows
  import opened MerkleTree
  import opened EventChain
  import opened AuditLog

  // ----- anchors -----

  datatype Anchor = Anchor(
    anchorVersion: int, sequenceNo: int, checkpointHash: HashText, merkleRoot: HashText,
    previousCheckpointHash: Option<HashText>, createdAt: int, signingKeyId: string, signature: string)

  function AnchorFor(b: Batch): Anchor {
    Anchor(1, b.sequenceNo, b.checkpointHash, b.merkleRoot, b.previousCheckpointHash, b.createdAt, b.signingKeyId, b.signature)
  }

  predicate AnchorSigned(cr: Crypto, a: Anchor, keys: PublicKeys) {
    && a.anchorVersion == 1 && a.sequenceNo >= 1
    && a.merkleRoot.Hex?
    && (a.previousCheckpointHash.Some? ==> a.previousCheckpointHash.value.Hex?)
    && SignatureFault(cr, a.checkpointHash, a.signingKeyId, a.signature, keys).None?
  }

  function WithSequence(sequenceNo: int): Batch -> bool { (b: Batch) => b.sequenceNo == sequenceNo }

  /** The anchor names exactly one stored checkpoint, equals that checkpoint's own anchor,
      and the history through it verifies. */
  predicate AnchorAccepted(cr: Crypto, db: AuditDb, a: Anchor, keys: PublicKeys) {
    var candidates := Where(db.batches, WithSequence(a.sequenceNo));
    && AnchorSigned(cr, a, keys)
    && |candidates| == 1
    && a == AnchorFor(candidates[0])
    && DatabaseSound(cr, db, keys, Some(a.sequenceNo), false)
  }

  method VerifyAnchor(cr: Crypto, db: AuditDb, a: Anchor, keys: PublicKeys) returns (ok: bool)
    ensures ok <==> AnchorAccepted(cr, db, a, keys)
  {
    if !AnchorSigned(cr, a, keys) { return false; }
    var candidates := Where(db.batches, WithSequence(a.sequenceNo));
    if |candidates| != 1 { return false; }
    if a != AnchorFor(candidates[0]) { return false; }
    var reason := VerifyDatabase(cr, db, keys, Some(a.sequenceNo), false);
    ok := reason.None?;
  }

  // ----- everything hashed while a history is verified -----

  function LeafEventInputs(cr: Crypto, events: seq<Event>, leaves: seq<Leaf>): set<Bytes> {
    if leaves == [] then {} else
      (match FindEvent(events, leaves[0].eventId) case None => {} case Some(e) => {cr.events.Input(e)})
      + LeafEventInputs(cr, events, leaves[1..])
  }

  function TreeInputsOf(cr: Crypto, leaves: seq<Leaf>): set<Bytes> {
    if AllWellFormed(leaves) then EventTreeInputs(cr.Sha(), EventDigests(leaves)) else {}
  }

  function BatchInputs(cr: Crypto, db: AuditDb, b: Batch): set<Bytes> {
    {cr.json(CheckpointOf(b))}
    + TreeInputsOf(cr, LeavesOf(db, b.id))
    + LeafEventInputs(cr, db.events, LeavesOf(db, b.id))
  }

  function HistoryInputs(cr: Crypto, db: AuditDb, rows: seq<Batch>): set<Bytes> {
    if rows == [] then {} else
      HistoryInputs(cr, db, rows[..|rows| - 1]) + BatchInputs(cr, db, rows[|rows| - 1])
  }

  // ----- sameness of two histories -----

  /** The same leaf: same event, position and hashes, and the stored events agree on every
      field the event hash covers. Only the batch's own row id may differ. */
  ghost predicate SameLeaf(events: seq<Event>, l: Leaf, events': seq<Event>, l': Leaf) {
    && l.(batchId := 0) == l'.(batchId := 0)
    && FindEvent(events, l.eventId).Some? && FindEvent(events', l'.eventId).Some?
    && Canonical(FindEvent(events, l.eventId).value) == Canonical(FindEvent(events', l'.eventId).value)
  }

  ghost predicate SameLeaves(events: seq<Event>, leaves: seq<Leaf>, events': seq<Event>, leaves': seq<Leaf>) {
    |leaves| == |leaves'| && forall i :: 0 <= i < |leaves| ==> SameLeaf(events, leaves[i], events', leaves'[i])
  }

  ghost predicate SameBatch(db: AuditDb, b: Batch, db': AuditDb, b': Batch) {
    && CheckpointOf(b) == CheckpointOf(b') && b.checkpointHash == b'.checkpointHash
    && SameLeaves(db.events, LeavesOf(db, b.id), db'.events, LeavesOf(db', b'.id))
  }

  ghost predicate SameHistory(db: AuditDb, rows: seq<Batch>, db': AuditDb, rows': seq<Batch>) {
    |rows| == |rows'| && forall i :: 0 <= i < |rows| ==> SameBatch(db, rows[i], db', rows'[i])
  }

  // ----- binding -----

  lemma {:induction false} LeafEventInputIn(cr: Crypto, events: seq<Event>, leaves: seq<Leaf>, i: nat)
    requires i < |leaves| && FindEvent(events, leaves[i].eventId).Some?
    ensures cr.events.Input(FindEvent(events, leaves[i].eventId).value) in LeafEventInputs(cr, events, leaves)
  {
    if i > 0 {
      LeafEventInputIn(cr, events, leaves[1..], i - 1);
    }
  }

  lemma LeafIsBinding(cr: Crypto, events: seq<Event>, leaves: seq<Leaf>, events': seq<Event>, leaves': seq<Leaf>, i: nat)
    requires cr.JsonInjective()
    requires i < |leaves| && i < |leaves'|
    requires LeafEventSound(cr, events, leaves[i]) && LeafEventSound(cr, events', leaves'[i])
    requires leaves[i].eventHash == leaves'[i].eventHash
    requires leaves[i].leafIndex == leaves'[i].leafIndex && leaves[i].leafHash == leaves'[i].leafHash
    ensures SameLeaf(events, leaves[i], events', leaves'[i])
         || CollisionBetween(cr.Sha(), LeafEventInputs(cr, events, leaves), LeafEventInputs(cr, events', leaves'))
  {
    var e, e' := FindEvent(events, leaves[i].eventId).value, FindEvent(events', leaves'[i].eventId).value;
    var x, x' := cr.events.Input(e), cr.events.Input(e');
    LeafEventInputIn(cr, events, leaves, i);
    LeafEventInputIn(cr, events', leaves', i);
    assert cr.Sha()(x) == cr.Sha()(x');
    if x == x' {
      assert Canonical(e) == Canonical(e');
      assert Canonical(e).id == leaves[i].eventId && Canonical(e').id == leaves'[i].eventId;
    }
  }

  lemma LeavesAreBinding(cr: Crypto, b: Batch, events: seq<Event>, leaves: seq<Leaf>, b': Batch, events': seq<Event>, leaves': seq<Leaf>)
    requires cr.JsonInjective() && b.merkleRoot == b'.merkleRoot
    requires LeavesSound(cr, b, leaves) && LeafEventsSound(cr, events, leaves)
    requires LeavesSound(cr, b', leaves') && LeafEventsSound(cr, events', leaves')
    ensures SameLeaves(events, leaves, events', leaves')
         || CollisionBetween(cr.Sha(), TreeInputsOf(cr, leaves), TreeInputsOf(cr, leaves'))
         || CollisionBetween(cr.Sha(), LeafEventInputs(cr, events, leaves), LeafEventInputs(cr, events', leaves'))
  {
    hide LeafEventSound, EventRoot, EventTreeInputs;
    var digests, digests' := EventDigests(leaves), EventDigests(leaves');
    EventRootIsBinding(cr.Sha(), digests, digests');
    if digests == digests' {
      forall i | 0 <= i < |leaves|
        ensures SameLeaf(events, leaves[i], events', leaves'[i])
             || CollisionBetween(cr.Sha(), LeafEventInputs(cr, events, leaves), LeafEventInputs(cr, events', leaves'))
      {
        assert leaves[i].eventHash == Hex(digests[i]) && leaves'[i].eventHash == Hex(digests'[i]);
        LeafIsBinding(cr, events, leaves, events', leaves', i);
      }
    }
  }

  /** Two sound checkpoints with the same checkpoint hash have the same content, down to
      the covered events, or verifying them exhibits a collision. */
  lemma BatchIsBinding(cr: Crypto, db: AuditDb, b: Batch, keys: PublicKeys, db': AuditDb, b': Batch, keys': PublicKeys)
    requires cr.JsonInjective()
    requires BatchSound(cr, db, b, keys) && BatchSound(cr, db', b', keys')
    requires b.checkpointHash == b'.checkpointHash
    ensures SameBatch(db, b, db', b')
         || CollisionBetween(cr.Sha(), BatchInputs(cr, db, b), BatchInputs(cr, db', b'))
  {
    hide LeavesSound, LeafEventsSound, LeavesOf, SameLeaves, TreeInputsOf, LeafEventInputs, WellFormed;
    var leaves, leaves' := LeavesOf(db, b.id), LeavesOf(db', b'.id);
    var x, x' := cr.json(CheckpointOf(b)), cr.json(CheckpointOf(b'));
    var all, all' := BatchInputs(cr, db, b), BatchInputs(cr, db', b');
    assert x in all && x' in all' && cr.Sha()(x) == cr.Sha()(x');
    if x == x' {
      assert CheckpointOf(b) == CheckpointOf(b');
      assert b.merkleRoot == CheckpointOf(b).merkleRoot && b'.merkleRoot == CheckpointOf(b').merkleRoot;
      LeavesAreBinding(cr, b, db.events, leaves, b', db'.events, leaves');
      CollisionGrows(cr.Sha(), TreeInputsOf(cr, leaves), TreeInputsOf(cr, leaves'), all, all');
      CollisionGrows(cr.Sha(), LeafEventInputs(cr, db.events, leaves), LeafEventInputs(cr, db'.events, leaves'), all, all');
    }
  }

  /** Down the chain of checkpoints: equal newest checkpoint hashes make every earlier
      checkpoint equal. */
  lemma {:induction false} HistoryIsBinding(cr: Crypto, db: AuditDb, rows: seq<Batch>, keys: PublicKeys,
                                            db': AuditDb, rows': seq<Batch>, keys': PublicKeys)
    requires cr.JsonInjective()
    requires HistorySound(cr, db, rows, keys) && HistorySound(cr, db', rows', keys')
    requires |rows| == |rows'| > 0
    requires rows[|rows| - 1].checkpointHash == rows'[|rows| - 1].checkpointHash
    ensures SameHistory(db, rows, db', rows')
         || CollisionBetween(cr.Sha(), HistoryInputs(cr, db, rows), HistoryInputs(cr, db', rows'))
    decreases |rows|
  {
    hide BatchSound, SameLeaves, BatchInputs, LeavesOf;
    var n := |rows| - 1;
    var init, init' := rows[..n], rows'[..n];
    var all, all' := HistoryInputs(cr, db, rows), HistoryInputs(cr, db', rows');
    BatchIsBinding(cr, db, rows[n], keys, db', rows'[n], keys');
    CollisionGrows(cr.Sha(), BatchInputs(cr, db, rows[n]), BatchInputs(cr, db', rows'[n]), all, all');
    if SameBatch(db, rows[n], db', rows'[n]) && n > 0 {
      assert rows[n].previousCheckpointHash == CheckpointOf(rows[n]).previousCheckpointHash;
      assert rows'[n].previousCheckpointHash == CheckpointOf(rows'[n]).previousCheckpointHash;
      HistoryIsBinding(cr, db, init, keys, db', init', keys');
      CollisionGrows(cr.Sha(), HistoryInputs(cr, db, init), HistoryInputs(cr, db', init'), all, all');
      assert SameHistory(db, init, db', init') ==> forall i :: 0 <= i < n ==> SameBatch(db, init[i], db', init'[i]);
    }
  }

  lemma OnlyCandidate(db: AuditDb, through: Option<int>, b: Batch)
    requires b in BatchesThrough(db, through)
    ensures b in Where(db.batches, WithSequence(b.sequenceNo))
  {
    hide Where, OrderBy;
    OrderByMembers(Where(db.batches, UpTo(through)), BatchKey);
    WhereMembers(db.batches, UpTo(through));
    WhereMembers(db.batches, WithSequence(b.sequenceNo));
  }

  /** The anchored checkpoint is the last row of the verified history. */
  lemma AnchoredRow(cr: Crypto, db: AuditDb, a: Anchor, keys: PublicKeys)
    requires AnchorAccepted(cr, db, a, keys)
    ensures var rows := BatchesThrough(db, Some(a.sequenceNo));
            |rows| == a.sequenceNo && |rows| > 0 && HistorySound(cr, db, rows, keys) && AnchorFor(rows[|rows| - 1]) == a
  {
    hide BatchSound, AnchorSigned, Where, BatchesThrough, WithSequence;
    var rows := BatchesThrough(db, Some(a.sequenceNo));
    OnlyCandidate(db, Some(a.sequenceNo), rows[|rows| - 1]);
  }

  /** Anchored history is unique: two databases that accept the same anchor hold the same
      checkpoints through it, the same leaves and the same covered events, or verifying the
      two histories exhibits a collision. The trusted keys may differ. */
  lemma AnchoredHistoryIsUnique(cr: Crypto, db: AuditDb, keys: PublicKeys, db': AuditDb, keys': PublicKeys, a: Anchor)
    requires cr.JsonInjective()
    requires AnchorAccepted(cr, db, a, keys) && AnchorAccepted(cr, db', a, keys')
    ensures var rows, rows' := BatchesThrough(db, Some(a.sequenceNo)), BatchesThrough(db', Some(a.sequenceNo));
            && |rows| == |rows'| == a.sequenceNo
            && (SameHistory(db, rows, db', rows')
                || CollisionBetween(cr.Sha(), HistoryInputs(cr, db, rows), HistoryInputs(cr, db', rows')))
  {
    hide AnchorAccepted, SameHistory, HistorySound, BatchesThrough;
    AnchoredRow(cr, db, a, keys);
    AnchoredRow(cr, db', a, keys');
    HistoryIsBinding(cr, db, BatchesThrough(db, Some(a.sequenceNo)), keys, db', BatchesThrough(db', Some(a.sequenceNo)), keys');
  }

  // ----- proof bundles -----

  datatype ProofBundle = ProofBundle(
    proofVersion: int, eventId: nat, eventHash: HashText, leafHash: HashText, batchId: nat, batchSequence: int,
    leafIndex: int, leafCount: int, merkleRoot: HashText, siblings: seq<ProofNode>,
    checkpoint: Checkpoint, checkpointHash: HashText, signature: string)

  datatype BundleReason = ProofFormatInvalid | BundleCheckpointHash | BundleSignature(reason: Reason)
                        | BundleLeafHash | ProofCheckpointMismatch | MerkleProofInvalid

  datatype BundleVerdict = BundleVerdict(
    valid: bool, eventHashValid: bool, inclusionProofValid: bool, checkpointHashValid: bool, signatureValid: bool,
    reason: Option<BundleReason>)

  predicate BundleAccepted(cr: Crypto, p: ProofBundle, keys: PublicKeys) {
    && p.proofVersion == 1
    && WellFormed(p.checkpoint)
    && p.checkpointHash == CheckpointHash(cr, p.checkpoint)
    && SignatureFault(cr, p.checkpointHash, p.checkpoint.signingKeyId, p.signature, keys).None?
    && p.eventHash.Hex? && p.leafHash == Hex(LeafHash(cr.Sha(), p.eventHash.digest))
    && p.checkpoint.leafCount == p.leafCount && p.checkpoint.sequenceNo == p.batchSequence
    && p.checkpoint.merkleRoot == p.merkleRoot
    && ProofAccepted(cr.Sha(), p.leafHash, p.leafIndex, p.leafCount, p.siblings, p.merkleRoot)
  }

  /** Fills in the verdict check by check; each flag is set exactly when its check and all
      earlier ones passed. */
  method VerifyProofBundle(cr: Crypto, p: ProofBundle, keys: PublicKeys) returns (v: BundleVerdict)
    ensures v.valid <==> BundleAccepted(cr, p, keys)
    ensures v.valid <==> v.reason.None?
    ensures v.valid ==> v.eventHashValid && v.inclusionProofValid && v.checkpointHashValid && v.signatureValid
    ensures v.inclusionProofValid ==> v.valid
    ensures v.eventHashValid ==> v.signatureValid && p.eventHash.Hex?
    ensures v.signatureValid ==> v.checkpointHashValid
    ensures v.checkpointHashValid ==> p.checkpointHash == CheckpointHash(cr, p.checkpoint)
  {
    v := BundleVerdict(false, false, false, false, false, Some(ProofFormatInvalid));
    if p.proofVersion != 1 || !WellFormed(p.checkpoint) { return; }
    if CheckpointHash(cr, p.checkpoint) != p.checkpointHash {
      return v.(reason := Some(BundleCheckpointHash));
    }
    v := v.(checkpointHashValid := true);
    var fault := SignatureFault(cr, p.checkpointHash, p.checkpoint.signingKeyId, p.signature, keys);
    if fault.Some? {
      return v.(reason := Some(BundleSignature(fault.value)));
    }
    v := v.(signatureValid := true);
    if p.eventHash.Malformed? { return; }
    if Hex(LeafHash(cr.Sha(), p.eventHash.digest)) != p.leafHash {
      return v.(reason := Some(BundleLeafHash));
    }
    v := v.(eventHashValid := true);
    if p.checkpoint.leafCount != p.leafCount || p.checkpoint.sequenceNo != p.batchSequence || p.checkpoint.merkleRoot != p.merkleRoot {
      return v.(reason := Some(ProofCheckpointMismatch));
    }
    var included := VerifyMerkleProof(cr.Sha(), p.leafHash, p.leafIndex, p.leafCount, p.siblings, p.merkleRoot);
    if !included {
      return v.(reason := Some(MerkleProofInvalid));
    }
    v := v.(inclusionProofValid := true, valid := true, reason := None);
  }

  function FindLeaf(leaves: seq<Leaf>, eventId: nat): (r: Option<Leaf>)
    ensures r.Some? ==> r.value in leaves && r.value.eventId == eventId
    ensures r.None? <==> forall l :: l in leaves ==> l.eventId != eventId
  {
    if leaves == [] then None
    else if leaves[0].eventId == eventId then Some(leaves[0])
    else FindLeaf(leaves[1..], eventId)
  }

  function FindBatch(batches: seq<Batch>, id: nat): (r: Option<Batch>)
    ensures r.Some? ==> r.value in batches && r.value.id == id
    ensures r.None? <==> forall b :: b in batches ==> b.id != id
  {
    if batches == [] then None
    else if batches[0].id == id then Some(batches[0])
    else FindBatch(batches[1..], id)
  }

  datatype ProofError = EventNotFound | NotCheckpointed | CurrentEventHashMismatch | SnapshotMismatch
                      | ChainInvalid(reason: Reason) | ProofNotBuilt

  predicate LeafMatches(cr: Crypto, e: Event, l: Leaf) {
    && e.eventHash == Some(cr.events.Hash(e))
    && l.eventHash == cr.events.Hash(e) && l.leafHash == Hex(LeafHash(cr.Sha(), cr.events.Hash(e).digest))
  }

  /** When a proof can be handed out: the event is stored unchanged under a checkpoint, and
      the history through that checkpoint verifies. */
  predicate ProofAvailable(cr: Crypto, db: AuditDb, eventId: nat, keys: PublicKeys) {
    var event, leaf := FindEvent(db.events, eventId), FindLeaf(db.leaves, eventId);
    && event.Some? && leaf.Some?
    && var batch := FindBatch(db.batches, leaf.value.batchId);
    && batch.Some?
    && LeafMatches(cr, event.value, leaf.value)
    && DatabaseSound(cr, db, keys, Some(batch.value.sequenceNo), false)
  }

  /** The bundle is returned with a fixed positive verdict; the verdict is justified. */
  method ProofForEvent(cr: Crypto, db: AuditDb, eventId: nat, keys: PublicKeys) returns (r: Result<ProofBundle, ProofError>)
    ensures r.Ok? ==> BundleAccepted(cr, r.value, keys) && r.value.eventId == eventId
    ensures r.Ok? ==> exists e :: e in db.events && e.id == eventId && e.eventHash == Some(r.value.eventHash) && cr.events.Hash(e) == r.value.eventHash
    ensures r.Ok? <==> ProofAvailable(cr, db, eventId, keys)
    ensures r == Err(EventNotFound) <==> FindEvent(db.events, eventId).None?
    ensures r != Err(ProofNotBuilt)
  {
    var event := FindEvent(db.events, eventId);
    if event.None? { return Err(EventNotFound); }
    var leaf := FindLeaf(db.leaves, eventId);
    if leaf.None? { return Err(NotCheckpointed); }
    var batch := FindBatch(db.batches, leaf.value.batchId);
    if batch.None? { return Err(NotCheckpointed); }
    if event.value.eventHash != Some(cr.events.Hash(event.value)) { return Err(CurrentEventHashMismatch); }
    var hash := cr.events.Hash(event.value);
    if leaf.value.eventHash != hash || leaf.value.leafHash != Hex(LeafHash(cr.Sha(), hash.digest)) {
      return Err(SnapshotMismatch);
    }
    var reason := VerifyDatabase(cr, db, keys, Some(batch.value.sequenceNo), false);
    if reason.Some? { return Err(ChainInvalid(reason.value)); }
    var leaves := LeavesOf(db, batch.value.id);
    SelectedLeaf(cr, db, keys, batch.value, leaf.value);
    LeafTextsAreLeafHashes(cr, leaves);
    BuiltBundleAccepted(cr, batch.value, leaves, leaf.value.leafIndex);
    var siblings := BuildMerkleProof(cr.Sha(), LeafTexts(leaves), leaf.value.leafIndex);
    if siblings.None? { return Err(ProofNotBuilt); }
    var b := batch.value;
    r := Ok(ProofBundle(1, eventId, leaf.value.eventHash, leaf.value.leafHash, b.id, b.sequenceNo,
                        leaf.value.leafIndex, b.leafCount, b.merkleRoot, siblings.value,
                        CheckpointOf(b), b.checkpointHash, b.signature));
  }

  /** The joined batch was verified, and the joined leaf is the one at its own index. */
  lemma SelectedLeaf(cr: Crypto, db: AuditDb, keys: PublicKeys, b: Batch, l: Leaf)
    requires b in db.batches && l in db.leaves && l.batchId == b.id
    requires DatabaseSound(cr, db, keys, Some(b.sequenceNo), false)
    ensures BatchSound(cr, db, b, keys)
    ensures var leaves := LeavesOf(db, b.id); 0 <= l.leafIndex < |leaves| && leaves[l.leafIndex] == l
  {
    hide BatchSound;
    var rows := BatchesThrough(db, Some(b.sequenceNo));
    WhereMembers(db.batches, UpTo(Some(b.sequenceNo)));
    OrderByMembers(Where(db.batches, UpTo(Some(b.sequenceNo))), BatchKey);
    assert b in Where(db.batches, UpTo(Some(b.sequenceNo)));
    assert b in rows;
    var i :| 0 <= i < |rows| && rows[i] == b;
    HistorySoundAt(cr, db, rows, keys, i);
    LeafAtItsIndex(cr, db, keys, b, l);
  }

  lemma LeafAtItsIndex(cr: Crypto, db: AuditDb, keys: PublicKeys, b: Batch, l: Leaf)
    requires BatchSound(cr, db, b, keys) && l in db.leaves && l.batchId == b.id
    ensures var leaves := LeavesOf(db, b.id); 0 <= l.leafIndex < |leaves| && leaves[l.leafIndex] == l
  {
    hide HeaderSound, LeafEventsSound, LeafHashesSound;
    var leaves := LeavesOf(db, b.id);
    WhereMembers(db.leaves, OfBatch(b.id));
    OrderByMembers(Where(db.leaves, OfBatch(b.id)), LeafKey);
    assert l in Where(db.leaves, OfBatch(b.id));
    assert l in leaves;
    var j :| 0 <= j < |leaves| && leaves[j] == l;
  }

  lemma BuiltBundleAccepted(cr: Crypto, b: Batch, leaves: seq<Leaf>, index: nat)
    requires LeavesSound(cr, b, leaves) && index < |leaves| <= MAX_BATCH_SIZE
    ensures |LeafTexts(leaves)| <= Pow2(MAX_PROOF_SIBLINGS)
    ensures var hashes := LeafHashes(cr.Sha(), EventDigests(leaves));
            ProofAccepted(cr.Sha(), leaves[index].leafHash, index, b.leafCount, AuditPath(cr.Sha(), hashes, index), b.merkleRoot)
  {
    var hashes := LeafHashes(cr.Sha(), EventDigests(leaves));
    assert |leaves| <= Pow2(MAX_PROOF_SIBLINGS) by {
      assert Pow2(12) == 4096 by {
        assert Pow2(4) == 16;
        assert Pow2(8) == 256;
      }
      Pow2Monotone(12, MAX_PROOF_SIBLINGS);
    }
    BuiltProofAccepted(cr.Sha(), hashes, index);
    assert leaves[index].leafHash == Hex(hashes[index]);
  }

  lemma {:induction false} Pow2Monotone(a: nat, b: nat)
    requires a <= b
    ensures Pow2(a) <= Pow2(b)
    decreases b - a
  {
    if a < b {
      Pow2Monotone(a, b - 1);
    }
  }

  /** Everything hashed while an accepted bundle is checked. */
  function BundleInputs(cr: Crypto, p: ProofBundle): set<Bytes>
    requires p.eventHash.Hex? && p.leafHash.Hex? && 0 <= p.leafIndex < p.leafCount
  {
    {cr.json(p.checkpoint), LeafInput(p.eventHash.digest)}
    + ProofInputs(cr.Sha(), p.leafHash.digest, p.leafIndex, p.leafCount, p.siblings)
  }

  /** An accepted bundle whose checkpoint hash is that of a sound checkpoint proves a leaf
      of that checkpoint, at that index, or checking it exhibits a collision. */
  lemma BundleIsBinding(cr: Crypto, p: ProofBundle, keys: PublicKeys, db: AuditDb, b: Batch, keys': PublicKeys)
    requires cr.JsonInjective()
    requires BundleAccepted(cr, p, keys) && BatchSound(cr, db, b, keys')
    requires p.checkpointHash == b.checkpointHash
    ensures var leaves := LeavesOf(db, b.id);
            || (0 <= p.leafIndex < |leaves| && leaves[p.leafIndex].eventHash == p.eventHash)
            || CollisionBetween(cr.Sha(), BundleInputs(cr, p), BatchInputs(cr, db, b))
  {
    hide LeafEventsSound, WellFormed, LeavesOf, ImpliedRoot;
    var leaves := LeavesOf(db, b.id);
    var x, x' := cr.json(p.checkpoint), cr.json(CheckpointOf(b));
    assert x in BundleInputs(cr, p) && x' in BatchInputs(cr, db, b) && cr.Sha()(x) == cr.Sha()(x');
    if x == x' {
      assert p.checkpoint == CheckpointOf(b);
      var digests := EventDigests(leaves);
      var hashes := LeafHashes(cr.Sha(), digests);
      AcceptedProofIsBinding(cr.Sha(), hashes, p.leafHash.digest, p.leafIndex, p.siblings);
      BundleLeafIsBinding(cr, p, db, b, digests);
    }
  }

  lemma BundleLeafIsBinding(cr: Crypto, p: ProofBundle, db: AuditDb, b: Batch, digests: seq<Digest>)
    requires AllWellFormed(LeavesOf(db, b.id)) && digests == EventDigests(LeavesOf(db, b.id))
    requires p.eventHash.Hex? && p.leafHash == Hex(LeafHash(cr.Sha(), p.eventHash.digest))
    requires 0 <= p.leafIndex < p.leafCount == |digests|
    requires var hashes := LeafHashes(cr.Sha(), digests);
             || p.leafHash.digest == hashes[p.leafIndex]
             || CollisionBetween(cr.Sha(), ProofInputs(cr.Sha(), p.leafHash.digest, p.leafIndex, |hashes|, p.siblings), TreeInputs(cr.Sha(), hashes))
    ensures LeavesOf(db, b.id)[p.leafIndex].eventHash == p.eventHash
         || CollisionBetween(cr.Sha(), BundleInputs(cr, p), BatchInputs(cr, db, b))
  {
    hide LeavesOf;
    var hashes, i := LeafHashes(cr.Sha(), digests), p.leafIndex;
    var all, all' := BundleInputs(cr, p), BatchInputs(cr, db, b);
    CollisionGrows(cr.Sha(), ProofInputs(cr.Sha(), p.leafHash.digest, i, |hashes|, p.siblings), TreeInputs(cr.Sha(), hashes), all, all');
    if p.leafHash.digest == hashes[i] {
      LeafInputIn(digests, i);
      var x, x' := LeafInput(p.eventHash.digest), LeafInput(digests[i]);
      assert x in all && x' in all' && cr.Sha()(x) == cr.Sha()(x');
      if x == x' { LeafInputInjective(p.eventHash.digest, digests[i]); }
    }
  }

  lemma {:induction false} LeafInputIn(digests: seq<Digest>, i: nat)
    requires i < |digests|
    ensures LeafInput(digests[i]) in LeafInputs(digests)
  {
    if i > 0 {
      LeafInputIn(digests[1..], i - 1);
    }
  }
}
