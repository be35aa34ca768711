/** Signed Merkle checkpoints over the audit events: the tables, what a sound checkpoint
    is, and the database verifier. */
module AuditLog {
  import opened Hashing
  import opened KeyIds
  import opened Rows
  import opened MerkleTree
  import opened EventChain

  const CHECKPOINT_VERSION := 1
  const MERKLE_VERSION := 1
  const MAX_BATCH_SIZE := 4096

  datatype Batch = Batch(
    id: nat, sequenceNo: int, merkleVersion: int, hashAlgorithm: string, leafCount: int,
    firstEventId: nat, lastEventId: nat, firstEventHash: HashText, lastEventHash: HashText, merkleRoot: HashText,
    previousCheckpointHash: Option<HashText>, checkpointHash: HashText,
    signingKeyId: string, signature: string, createdAt: int)

  datatype Leaf = Leaf(batchId: nat, eventId: nat, leafIndex: int, eventHash: HashText, leafHash: HashText)

  datatype AuditDb = AuditDb(events: seq<Event>, batches: seq<Batch>, leaves: seq<Leaf>)

  /** The thirteen canonical checkpoint fields, in the order they are listed. */
  datatype Checkpoint = Checkpoint(
    checkpointVersion: int, sequenceNo: int, merkleVersion: int, hashAlgorithm: string, leafCount: int,
    firstEventId: nat, lastEventId: nat, firstEventHash: HashText, lastEventHash: HashText, merkleRoot: HashText,
    previousCheckpointHash: Option<HashText>, signingKeyId: string, createdAt: int)

  /** Everything foreign: hashing, canonical JSON, and Ed25519 over base64 texts. Key and
      signature texts that do not decode simply do not verify. */
  datatype Crypto = Crypto(
    events: EventHasher, json: Checkpoint -> Bytes,
    publicKeyOf: string -> Option<string>, sign: (string, Digest) -> string, verifies: (string, string, Digest) -> bool)
  {
    function Sha(): Sha256 { events.sha }

    /** Signing and verifying agree. */
    ghost predicate SignaturesVerify() {
      forall seed, digest :: publicKeyOf(seed).Some? ==> verifies(publicKeyOf(seed).value, sign(seed, digest), digest)
    }

    /** The same of checkpoint and of event records. */
    ghost predicate JsonInjective() {
      (forall a, b :: json(a) == json(b) ==> a == b) && events.JsonInjective()
    }
  }

  type PublicKeys = map<string, string>

  datatype Reason = CheckpointFormatInvalid | CheckpointHashMismatch | UnknownSigningKey | SignatureInvalid
                  | LeafCountMismatch | LeafIndexMismatch | CheckpointBoundaryMismatch | LeafHashMismatch
                  | MerkleRootMismatch | EventMissing | EventHashSnapshotMismatch | EventHashMismatch
                  | CheckpointSequenceBroken | CheckpointChainBroken | AnchoredCheckpointMissing | EventChainBroken

  // ----- checkpoints -----

  function CheckpointOf(b: Batch): Checkpoint {
    Checkpoint(CHECKPOINT_VERSION, b.sequenceNo, b.merkleVersion, b.hashAlgorithm, b.leafCount,
               b.firstEventId, b.lastEventId, b.firstEventHash, b.lastEventHash, b.merkleRoot,
               b.previousCheckpointHash, b.signingKeyId, b.createdAt)
  }

  predicate WellFormed(c: Checkpoint) {
    && c.checkpointVersion == CHECKPOINT_VERSION
    && c.sequenceNo >= 1
    && c.merkleVersion == MERKLE_VERSION
    && 1 <= c.leafCount <= MAX_BATCH_SIZE
    && c.hashAlgorithm == HASH_ALGORITHM
    && c.firstEventHash.Hex? && c.lastEventHash.Hex? && c.merkleRoot.Hex?
    && (c.previousCheckpointHash.Some? ==> c.previousCheckpointHash.value.Hex?)
    && ValidKeyId(c.signingKeyId)
  }

  function CheckpointHash(cr: Crypto, c: Checkpoint): HashText { Hex(cr.Sha()(cr.json(c))) }

  function SignatureFault(cr: Crypto, hash: HashText, keyId: string, signature: string, keys: PublicKeys): Option<Reason> {
    if hash.Malformed? then Some(CheckpointHashMismatch)
    else if keyId !in keys then Some(UnknownSigningKey)
    else if !cr.verifies(keys[keyId], signature, hash.digest) then Some(SignatureInvalid)
    else None
  }

  // ----- queries -----

  function LeafKey(l: Leaf): SortKey { (l.leafIndex, l.eventId) }

  function BatchKey(b: Batch): SortKey { (b.sequenceNo, b.id) }

  function OfBatch(batchId: nat): Leaf -> bool { (l: Leaf) => l.batchId == batchId }

  function LeavesOf(db: AuditDb, batchId: nat): seq<Leaf> {
    OrderBy(Where(db.leaves, OfBatch(batchId)), LeafKey)
  }

  function UpTo(through: Option<int>): Batch -> bool {
    (b: Batch) => through.None? || b.sequenceNo <= through.value
  }

  function BatchesThrough(db: AuditDb, through: Option<int>): seq<Batch> {
    OrderBy(Where(db.batches, UpTo(through)), BatchKey)
  }

  function FindEvent(events: seq<Event>, id: nat): (r: Option<Event>)
    ensures r.Some? ==> r.value in events && r.value.id == id
    ensures r.None? <==> forall e :: e in events ==> e.id != id
  {
    if events == [] then None
    else if events[0].id == id then Some(events[0])
    else FindEvent(events[1..], id)
  }

  // ----- what the verifier accepts -----

  predicate AllWellFormed(leaves: seq<Leaf>) {
    forall i :: 0 <= i < |leaves| ==> leaves[i].eventHash.Hex?
  }

  /** The event digests of leaves whose hashes are well formed. */
  function EventDigests(leaves: seq<Leaf>): (digests: seq<Digest>)
    requires AllWellFormed(leaves)
    ensures |digests| == |leaves|
    ensures forall i :: 0 <= i < |leaves| ==> leaves[i].eventHash == Hex(digests[i])
  {
    if leaves == [] then [] else [leaves[0].eventHash.digest] + EventDigests(leaves[1..])
  }

  function LeafTexts(leaves: seq<Leaf>): (texts: seq<HashText>)
    ensures |texts| == |leaves|
    ensures forall i :: 0 <= i < |leaves| ==> texts[i] == leaves[i].leafHash
  {
    if leaves == [] then [] else [leaves[0].leafHash] + LeafTexts(leaves[1..])
  }

  predicate LeafHashesSound(cr: Crypto, leaves: seq<Leaf>) {
    forall i :: 0 <= i < |leaves| ==>
      leaves[i].eventHash.Hex? && leaves[i].leafHash == Hex(LeafHash(cr.Sha(), leaves[i].eventHash.digest))
  }

  predicate BoundariesSound(b: Batch, leaves: seq<Leaf>) {
    && |leaves| == b.leafCount && leaves != []
    && (forall i :: 0 <= i < |leaves| ==> leaves[i].leafIndex == i)
    && leaves[0].eventId == b.firstEventId && leaves[0].eventHash == b.firstEventHash
    && leaves[|leaves| - 1].eventId == b.lastEventId && leaves[|leaves| - 1].eventHash == b.lastEventHash
  }

  predicate LeavesSound(cr: Crypto, b: Batch, leaves: seq<Leaf>) {
    && BoundariesSound(b, leaves)
    && LeafHashesSound(cr, leaves)
    && AllWellFormed(leaves)
    && b.merkleRoot == Hex(EventRoot(cr.Sha(), EventDigests(leaves)))
  }

  predicate LeafEventSound(cr: Crypto, events: seq<Event>, l: Leaf) {
    var event := FindEvent(events, l.eventId);
    event.Some? && event.value.eventHash == Some(l.eventHash) && cr.events.Hash(event.value) == l.eventHash
  }

  /** As many events as leaves: of one batch, or of the whole table. */
  predicate LeafEventIdsDistinct(leaves: seq<Leaf>) {
    forall i, j :: 0 <= i < j < |leaves| ==> leaves[i].eventId != leaves[j].eventId
  }

  predicate LeafEventsSound(cr: Crypto, events: seq<Event>, leaves: seq<Leaf>) {
    && LeafEventIdsDistinct(leaves)
    && forall i :: 0 <= i < |leaves| ==> LeafEventSound(cr, events, leaves[i])
  }

  predicate HeaderSound(cr: Crypto, b: Batch, keys: PublicKeys) {
    && WellFormed(CheckpointOf(b))
    && b.checkpointHash == CheckpointHash(cr, CheckpointOf(b))
    && SignatureFault(cr, b.checkpointHash, b.signingKeyId, b.signature, keys).None?
  }

  predicate BatchSound(cr: Crypto, db: AuditDb, b: Batch, keys: PublicKeys) {
    && HeaderSound(cr, b, keys)
    && LeavesSound(cr, b, LeavesOf(db, b.id))
    && LeafEventsSound(cr, db.events, LeavesOf(db, b.id))
  }

  /** The place of a checkpoint in the chain of checkpoints. */
  predicate BatchLinked(rows: seq<Batch>, i: nat)
    requires i < |rows|
  {
    rows[i].sequenceNo == i + 1
    && rows[i].previousCheckpointHash == (if i == 0 then None else Some(rows[i - 1].checkpointHash))
  }

  predicate HistorySound(cr: Crypto, db: AuditDb, rows: seq<Batch>, keys: PublicKeys) {
    rows == [] ||
    (var n := |rows| - 1;
     HistorySound(cr, db, rows[..n], keys) && BatchLinked(rows, n) && BatchSound(cr, db, rows[n], keys))
  }

  function EventScope(events: seq<Event>, l: Leaf): Option<Scope> {
    var event := FindEvent(events, l.eventId);
    if event.Some? then event.value.integrityScope else None
  }

  function LeafScopes(events: seq<Event>, leaves: seq<Leaf>): set<Scope> {
    if leaves == [] then {} else
      (match EventScope(events, leaves[0]) case None => {} case Some(scope) => {scope}) + LeafScopes(events, leaves[1..])
  }

  /** The scopes of the events that some checkpoints cover. */
  function CoveredScopes(db: AuditDb, rows: seq<Batch>): set<Scope> {
    if rows == [] then {} else
      var n := |rows| - 1;
      CoveredScopes(db, rows[..n]) + LeafScopes(db.events, LeavesOf(db, rows[n].id))
  }

  predicate ChainsSound(cr: Crypto, events: seq<Event>, scopes: set<Scope>) {
    forall scope :: scope in scopes ==> ChainValid(cr.events, scope, ScopeRows(events, scope))
  }

  predicate EndsAt(rows: seq<Batch>, through: Option<int>) {
    through.Some? ==> rows != [] && rows[|rows| - 1].sequenceNo == through.value
  }

  predicate DatabaseSound(cr: Crypto, db: AuditDb, keys: PublicKeys, through: Option<int>, chains: bool) {
    var rows := BatchesThrough(db, through);
    && HistorySound(cr, db, rows, keys)
    && EndsAt(rows, through)
    && (chains ==> ChainsSound(cr, db.events, CoveredScopes(db, rows)))
  }

  lemma {:induction false} HistorySoundAt(cr: Crypto, db: AuditDb, rows: seq<Batch>, keys: PublicKeys, i: nat)
    requires HistorySound(cr, db, rows, keys) && i < |rows|
    ensures BatchLinked(rows, i) && BatchSound(cr, db, rows[i], keys)
  {
    hide BatchSound;
    var n := |rows| - 1;
    if i < n {
      HistorySoundAt(cr, db, rows[..n], keys, i);
    }
  }

  lemma {:induction false} HistorySoundPrefix(cr: Crypto, db: AuditDb, rows: seq<Batch>, keys: PublicKeys, i: nat)
    requires HistorySound(cr, db, rows, keys) && i <= |rows|
    ensures HistorySound(cr, db, rows[..i], keys)
  {
    hide BatchSound, BatchLinked;
    var n := |rows| - 1;
    if i < |rows| {
      HistorySoundPrefix(cr, db, rows[..n], keys, i);
      assert rows[..n][..i] == rows[..i];
    } else {
      assert rows[..i] == rows;
    }
  }

  // ----- the verifier -----

  lemma {:induction false} LeafTextsAreLeafHashes(cr: Crypto, leaves: seq<Leaf>)
    requires LeafHashesSound(cr, leaves) && AllWellFormed(leaves)
    ensures DecodeAll(LeafTexts(leaves)) == Some(LeafHashes(cr.Sha(), EventDigests(leaves)))
  {
    if leaves != [] {
      var rest := leaves[1..];
      assert LeafHashesSound(cr, rest) && AllWellFormed(rest);
      LeafTextsAreLeafHashes(cr, rest);
      var texts, digests := LeafTexts(leaves), EventDigests(leaves);
      assert texts[1..] == LeafTexts(rest) && digests[1..] == EventDigests(rest);
      assert texts[0] == Hex(LeafHash(cr.Sha(), digests[0]));
    }
  }

  method VerifyBoundaries(b: Batch, leaves: seq<Leaf>) returns (r: Option<Reason>)
    ensures r.None? <==> BoundariesSound(b, leaves)
  {
    if |leaves| != b.leafCount { return Some(LeafCountMismatch); }
    var i := 0;
    while i < |leaves|
      invariant 0 <= i <= |leaves|
      invariant forall j :: 0 <= j < i ==> leaves[j].leafIndex == j
    {
      if leaves[i].leafIndex != i { return Some(LeafIndexMismatch); }
      i := i + 1;
    }
    if leaves == [] { return Some(LeafCountMismatch); }
    var last := leaves[|leaves| - 1];
    if leaves[0].eventId != b.firstEventId || last.eventId != b.lastEventId
       || leaves[0].eventHash != b.firstEventHash || last.eventHash != b.lastEventHash {
      return Some(CheckpointBoundaryMismatch);
    }
    r := None;
  }

  method VerifyLeafHashes(cr: Crypto, leaves: seq<Leaf>) returns (ok: bool)
    ensures ok <==> LeafHashesSound(cr, leaves)
    ensures ok ==> AllWellFormed(leaves)
  {
    var i := 0;
    while i < |leaves|
      invariant 0 <= i <= |leaves|
      invariant forall j :: 0 <= j < i ==>
        leaves[j].eventHash.Hex? && leaves[j].leafHash == Hex(LeafHash(cr.Sha(), leaves[j].eventHash.digest))
    {
      if leaves[i].eventHash.Malformed? || Hex(LeafHash(cr.Sha(), leaves[i].eventHash.digest)) != leaves[i].leafHash {
        return false;
      }
      i := i + 1;
    }
    ok := true;
  }

  method VerifyLeaves(cr: Crypto, b: Batch, leaves: seq<Leaf>) returns (r: Option<Reason>)
    ensures r.None? <==> LeavesSound(cr, b, leaves)
  {
    r := VerifyBoundaries(b, leaves);
    if r.Some? { return; }
    var hashesOk := VerifyLeafHashes(cr, leaves);
    if !hashesOk { return Some(LeafHashMismatch); }
    LeafTextsAreLeafHashes(cr, leaves);
    var root := BuildMerkleRoot(cr.Sha(), LeafTexts(leaves));
    if root.None? || Hex(root.value) != b.merkleRoot { return Some(MerkleRootMismatch); }
    r := None;
  }

  method VerifyLeafEvents(cr: Crypto, events: seq<Event>, leaves: seq<Leaf>) returns (r: Option<Reason>)
    ensures r.None? <==> LeafEventsSound(cr, events, leaves)
  {
    var i := 0;
    while i < |leaves|
      invariant 0 <= i <= |leaves|
      invariant forall j :: 0 <= j < i ==> FindEvent(events, leaves[j].eventId).Some?
    {
      if FindEvent(events, leaves[i].eventId).None? {
        assert !LeafEventSound(cr, events, leaves[i]);
        return Some(EventMissing);
      }
      i := i + 1;
    }
    if !LeafEventIdsDistinct(leaves) { return Some(EventMissing); }
    i := 0;
    while i < |leaves|
      invariant 0 <= i <= |leaves|
      invariant forall j :: 0 <= j < i ==> LeafEventSound(cr, events, leaves[j])
    {
      var event := FindEvent(events, leaves[i].eventId).value;
      if event.eventHash != Some(leaves[i].eventHash) {
        assert !LeafEventSound(cr, events, leaves[i]);
        return Some(EventHashSnapshotMismatch);
      }
      if cr.events.Hash(event) != leaves[i].eventHash {
        assert !LeafEventSound(cr, events, leaves[i]);
        return Some(EventHashMismatch);
      }
      i := i + 1;
    }
    r := None;
  }

  method VerifyBatch(cr: Crypto, db: AuditDb, b: Batch, keys: PublicKeys) returns (r: Option<Reason>)
    ensures r.None? <==> BatchSound(cr, db, b, keys)
  {
    if !WellFormed(CheckpointOf(b)) { return Some(CheckpointFormatInvalid); }
    if b.checkpointHash != CheckpointHash(cr, CheckpointOf(b)) { return Some(CheckpointHashMismatch); }
    r := SignatureFault(cr, b.checkpointHash, b.signingKeyId, b.signature, keys);
    if r.Some? { return; }
    r := VerifyLeaves(cr, b, LeavesOf(db, b.id));
    if r.Some? { return; }
    r := VerifyLeafEvents(cr, db.events, LeavesOf(db, b.id));
  }

  method VerifyChains(cr: Crypto, events: seq<Event>, scopes: set<Scope>) returns (ok: bool)
    ensures ok <==> ChainsSound(cr, events, scopes)
  {
    var rest := scopes;
    while rest != {}
      invariant rest <= scopes
      invariant ChainsSound(cr, events, scopes - rest)
      decreases |rest|
    {
      var scope :| scope in rest;
      var verdict := VerifyEvents(cr.events, scope, ScopeRows(events, scope));
      if verdict.ChainBroken? { return false; }
      rest := rest - {scope};
    }
    ok := true;
  }

  lemma NoHistory(cr: Crypto, db: AuditDb, keys: PublicKeys)
    ensures HistorySound(cr, db, [], keys) && CoveredScopes(db, []) == {}
  {
  }

  lemma OneMoreBatch(cr: Crypto, db: AuditDb, rows: seq<Batch>, keys: PublicKeys)
    requires rows != []
    ensures var n := |rows| - 1;
            && (HistorySound(cr, db, rows, keys) <==> HistorySound(cr, db, rows[..n], keys) && BatchLinked(rows, n) && BatchSound(cr, db, rows[n], keys))
            && CoveredScopes(db, rows) == CoveredScopes(db, rows[..n]) + LeafScopes(db.events, LeavesOf(db, rows[n].id))
  {
    hide BatchSound, LeavesOf, LeafScopes;
  }

  method VerifyHistory(cr: Crypto, db: AuditDb, rows: seq<Batch>, keys: PublicKeys) returns (r: Option<Reason>, scopes: set<Scope>)
    ensures r.None? <==> HistorySound(cr, db, rows, keys)
    ensures r.None? ==> scopes == CoveredScopes(db, rows)
  {
    hide BatchSound, LeavesOf, HistorySound, CoveredScopes, LeafScopes;
    scopes := {};
    NoHistory(cr, db, keys);
    var i, expectedPrevious: Option<HashText> := 0, None;
    while i < |rows|
      invariant 0 <= i <= |rows|
      invariant expectedPrevious == if i == 0 then None else Some(rows[i - 1].checkpointHash)
      invariant HistorySound(cr, db, rows[..i], keys) && scopes == CoveredScopes(db, rows[..i])
    {
      var batch := rows[i];
      ghost var next := rows[..i + 1];
      assert next[..i] == rows[..i] && next[i] == batch && BatchLinked(next, i) == BatchLinked(rows, i);
      OneMoreBatch(cr, db, next, keys);
      if HistorySound(cr, db, rows, keys) { HistorySoundAt(cr, db, rows, keys, i); }
      if batch.sequenceNo != i + 1 { return Some(CheckpointSequenceBroken), {}; }
      if batch.previousCheckpointHash != expectedPrevious { return Some(CheckpointChainBroken), {}; }
      var fault := VerifyBatch(cr, db, batch, keys);
      if fault.Some? { return fault, {}; }
      scopes := scopes + LeafScopes(db.events, LeavesOf(db, batch.id));
      expectedPrevious := Some(batch.checkpointHash);
      i := i + 1;
    }
    assert rows[..i] == rows;
    r := None;
  }

  /** Accepts exactly the databases whose checkpoints through the requested sequence are
      numbered 1, 2, ..., linked, signed and sound, and on request whose event chains are. */
  method VerifyDatabase(cr: Crypto, db: AuditDb, keys: PublicKeys, through: Option<int>, chains: bool)
    returns (r: Option<Reason>)
    ensures r.None? <==> DatabaseSound(cr, db, keys, through, chains)
  {
    var rows := BatchesThrough(db, through);
    var scopes: set<Scope>;
    r, scopes := VerifyHistory(cr, db, rows, keys);
    if r.Some? { return; }
    if !EndsAt(rows, through) { return Some(AnchoredCheckpointMissing); }
    if chains {
      var ok := VerifyChains(cr, db.events, scopes);
      if !ok { return Some(EventChainBroken); }
    }
  }
}
