/** Appending events and cutting uncheckpointed events into signed Merkle batches. */
module Checkpointing {
  import opened Hashing
  import opened KeyIds
  import opened Rows
  import opened MerkleTree
  import opened EventChain
  import opened AuditLog

  // ----- the append step -----

  /** What a writer stores for one event: a row linked behind the newest of its scope. */
  function Linked(cr: Crypto, db: AuditDb, event: Event): Event {
    AttachIntegrity(cr.events, db.events, event, ScopeOf(event.channelId))
  }

  function WithEvent(cr: Crypto, db: AuditDb, event: Event): AuditDb {
    db.(events := db.events + [Linked(cr, db, event)])
  }

  // ----- the checkpoint step -----

  predicate HasMetadata(e: Event) {
    e.eventHash.Some? && e.hashAlgorithm == Some(HASH_ALGORITHM) && e.integrityVersion == Some(INTEGRITY_VERSION)
    && e.integrityScope.Some?
  }

  predicate Covered(leaves: seq<Leaf>, eventId: nat) {
    exists i :: 0 <= i < |leaves| && leaves[i].eventId == eventId
  }

  function IsPending(leaves: seq<Leaf>): Event -> bool {
    (e: Event) => !Covered(leaves, e.id) && HasMetadata(e)
  }

  /** Uncheckpointed events in (created_at, id) order. */
  function Pending(db: AuditDb): seq<Event> {
    OrderBy(Where(db.events, IsPending(db.leaves)), EventKey)
  }

  function Selection(db: AuditDb, maxLeaves: nat): seq<Event> {
    var pending := Pending(db);
    if |pending| <= maxLeaves then pending else pending[..maxLeaves]
  }

  predicate HashChecks(cr: Crypto, e: Event) { e.eventHash == Some(cr.events.Hash(e)) }

  /** The leaf rows of a batch, numbered from zero. */
  function LeavesFor(cr: Crypto, batchId: nat, events: seq<Event>): (leaves: seq<Leaf>)
    ensures |leaves| == |events|
    ensures forall i :: 0 <= i < |events| ==>
              leaves[i] == Leaf(batchId, events[i].id, i, cr.events.Hash(events[i]),
                                Hex(LeafHash(cr.Sha(), cr.events.Hash(events[i]).digest)))
  {
    if events == [] then [] else
      var n := |events| - 1;
      var hash := cr.events.Hash(events[n]);
      LeavesFor(cr, batchId, events[..n]) + [Leaf(batchId, events[n].id, n, hash, Hex(LeafHash(cr.Sha(), hash.digest)))]
  }

  datatype Signer = Signer(keyId: string, seed: string)

  predicate ConfigurationValid(cr: Crypto, signer: Signer, keys: PublicKeys) {
    ValidKeyId(signer.keyId) && signer.keyId in keys && cr.publicKeyOf(signer.seed) == Some(keys[signer.keyId])
  }

  function NewBatch(cr: Crypto, latest: Option<Batch>, events: seq<Event>, signer: Signer, id: nat, now: int): Batch
    requires events != []
  {
    var n := |events| - 1;
    var leaves := LeavesFor(cr, id, events);
    var draft := Batch(
      id, if latest.None? then 1 else latest.value.sequenceNo + 1, MERKLE_VERSION, HASH_ALGORITHM, |events|,
      events[0].id, events[n].id, cr.events.Hash(events[0]), cr.events.Hash(events[n]),
      Hex(EventRoot(cr.Sha(), EventDigests(leaves))),
      if latest.None? then None else Some(latest.value.checkpointHash), Malformed(""), signer.keyId, "", now);
    var hash := CheckpointHash(cr, CheckpointOf(draft));
    draft.(checkpointHash := hash, signature := cr.sign(signer.seed, hash.digest))
  }

  function LatestBatch(db: AuditDb): Option<Batch> {
    var rows := BatchesThrough(db, None);
    if rows == [] then None else Some(rows[|rows| - 1])
  }

  function WithBatch(cr: Crypto, db: AuditDb, events: seq<Event>, signer: Signer, id: nat, now: int): AuditDb
    requires events != []
  {
    db.(batches := db.batches + [NewBatch(cr, LatestBatch(db), events, signer, id, now)],
        leaves := db.leaves + LeavesFor(cr, id, events))
  }

  // ----- the invariant of the audit tables -----

  ghost predicate DistinctIds(events: seq<Event>) {
    forall i, j :: 0 <= i < j < |events| ==> events[i].id != events[j].id
  }

  ghost predicate ScopesAssigned(events: seq<Event>) {
    forall i :: 0 <= i < |events| ==> events[i].integrityScope == Some(ScopeOf(events[i].channelId))
  }

  ghost predicate ChainsValid(cr: Crypto, events: seq<Event>) {
    forall scope :: ChainValid(cr.events, scope, ScopeRows(events, scope))
  }

  ghost predicate EventsGood(cr: Crypto, events: seq<Event>) {
    DistinctIds(events) && ScopesAssigned(events) && ChainsValid(cr, events)
  }

  predicate BatchKnown(batches: seq<Batch>, id: nat) {
    exists j :: 0 <= j < |batches| && batches[j].id == id
  }

  ghost predicate LeafBatchesKnown(batches: seq<Batch>, leaves: seq<Leaf>) {
    forall i :: 0 <= i < |leaves| ==> BatchKnown(batches, leaves[i].batchId)
  }

  ghost predicate LeafEventsKnown(events: seq<Event>, leaves: seq<Leaf>) {
    forall i :: 0 <= i < |leaves| ==> FindEvent(events, leaves[i].eventId).Some?
  }

  ghost predicate LeafTableGood(db: AuditDb) {
    LeafBatchesKnown(db.batches, db.leaves) && LeafEventsKnown(db.events, db.leaves) && LeafEventIdsDistinct(db.leaves)
  }

  ghost predicate BatchIdsDistinct(batches: seq<Batch>) {
    forall i, j :: 0 <= i < j < |batches| ==> batches[i].id != batches[j].id
  }

  /** An event is taken when it is covered by a leaf or selected by a running checkpoint. */
  ghost predicate Taken(leaves: seq<Leaf>, selected: seq<Event>, e: Event) {
    Covered(leaves, e.id) || e in selected
  }

  /** In every scope the taken events are a prefix of the chain. */
  ghost predicate PrefixTaken(events: seq<Event>, leaves: seq<Leaf>, selected: seq<Event>) {
    forall scope, i, j ::
      0 <= i < j < |ScopeRows(events, scope)| && Taken(leaves, selected, ScopeRows(events, scope)[j]) ==>
      Taken(leaves, selected, ScopeRows(events, scope)[i])
  }

  ghost predicate AuditGood(cr: Crypto, db: AuditDb, keys: PublicKeys) {
    && EventsGood(cr, db.events)
    && LeafTableGood(db)
    && BatchIdsDistinct(db.batches)
    && HistorySound(cr, db, db.batches, keys)
  }

  // ----- facts about good event tables -----

  lemma StoredEventSound(cr: Crypto, events: seq<Event>, e: Event)
    requires ScopesAssigned(events) && ChainsValid(cr, events) && e in events
    ensures HasMetadata(e) && HashChecks(cr, e)
  {
    var scope := ScopeOf(e.channelId);
    var rows := ScopeRows(events, scope);
    WhereMembers(events, InScope(scope));
    OrderByMembers(Where(events, InScope(scope)), EventKey);
    var k :| 0 <= k < |events| && events[k] == e;
    assert e in Where(events, InScope(scope));
    assert e in rows;
    var i :| 0 <= i < |rows| && rows[i] == e;
    assert SoundAt(cr.events, scope, rows, i);
  }

  lemma DistinctIdsDistinctKeys(events: seq<Event>)
    requires DistinctIds(events)
    ensures DistinctKeys(events, EventKey)
  {
  }

  lemma ScopeRowsOrdered(events: seq<Event>, scope: Scope)
    requires DistinctIds(events)
    ensures Ordered(ScopeRows(events, scope), EventKey)
    ensures forall e :: e in ScopeRows(events, scope) <==> e in events && e.integrityScope == Some(scope)
  {
    DistinctIdsDistinctKeys(events);
    WhereDistinct(events, InScope(scope), EventKey);
    OrderByOrdered(Where(events, InScope(scope)), EventKey);
    WhereMembers(events, InScope(scope));
    OrderByMembers(Where(events, InScope(scope)), EventKey);
    forall e | e in ScopeRows(events, scope)
      ensures e in events && e.integrityScope == Some(scope)
    {
      assert e in Where(events, InScope(scope));
    }
    forall e | e in events && e.integrityScope == Some(scope)
      ensures e in ScopeRows(events, scope)
    {
      assert e in Where(events, InScope(scope));
    }
  }

  lemma PendingOrdered(db: AuditDb)
    requires DistinctIds(db.events)
    ensures Ordered(Pending(db), EventKey)
    ensures forall e :: e in Pending(db) <==> e in db.events && !Covered(db.leaves, e.id) && HasMetadata(e)
  {
    DistinctIdsDistinctKeys(db.events);
    WhereDistinct(db.events, IsPending(db.leaves), EventKey);
    OrderByOrdered(Where(db.events, IsPending(db.leaves)), EventKey);
    WhereMembers(db.events, IsPending(db.leaves));
    OrderByMembers(Where(db.events, IsPending(db.leaves)), EventKey);
    forall e | e in Pending(db)
      ensures e in db.events && !Covered(db.leaves, e.id) && HasMetadata(e)
    {
      assert e in Where(db.events, IsPending(db.leaves));
    }
    forall e | e in db.events && !Covered(db.leaves, e.id) && HasMetadata(e)
      ensures e in Pending(db)
    {
      assert e in Where(db.events, IsPending(db.leaves));
    }
  }

  lemma DistinctEventsDistinctIds(events: seq<Event>, a: Event, b: Event)
    requires DistinctIds(events) && a in events && b in events && a != b
    ensures a.id != b.id
  {
    var i :| 0 <= i < |events| && events[i] == a;
    var j :| 0 <= j < |events| && events[j] == b;
    assert i < j || j < i;
  }

  // ----- growth of the event table -----

  lemma {:induction false} FindEventGrows(events: seq<Event>, more: seq<Event>, id: nat)
    requires FindEvent(events, id).Some?
    ensures FindEvent(events + more, id) == FindEvent(events, id)
  {
    if events[0].id != id {
      assert (events + more)[1..] == events[1..] + more;
      FindEventGrows(events[1..], more, id);
    }
  }

  lemma LeafEventsSoundGrows(cr: Crypto, events: seq<Event>, more: seq<Event>, leaves: seq<Leaf>)
    requires LeafEventsSound(cr, events, leaves)
    ensures LeafEventsSound(cr, events + more, leaves)
  {
    forall i | 0 <= i < |leaves|
      ensures LeafEventSound(cr, events + more, leaves[i])
    {
      assert LeafEventSound(cr, events, leaves[i]);
      FindEventGrows(events, more, leaves[i].eventId);
    }
  }

  /** One database extends another when its events and checkpoints continue the other's and
      the leaves of the other's checkpoints are unchanged. */
  ghost predicate Extends(db: AuditDb, db': AuditDb) {
    && db.events <= db'.events && db.batches <= db'.batches
    && forall i :: 0 <= i < |db.batches| ==> LeavesOf(db', db.batches[i].id) == LeavesOf(db, db.batches[i].id)
  }

  lemma {:induction false} HistorySoundExtends(cr: Crypto, db: AuditDb, db': AuditDb, rows: seq<Batch>, keys: PublicKeys)
    requires HistorySound(cr, db, rows, keys) && db.events <= db'.events
    requires forall i :: 0 <= i < |rows| ==> LeavesOf(db', rows[i].id) == LeavesOf(db, rows[i].id)
    ensures HistorySound(cr, db', rows, keys)
  {
    hide LeavesOf, HeaderSound, LeavesSound, LeafEventsSound;
    if rows != [] {
      var n := |rows| - 1;
      HistorySoundExtends(cr, db, db', rows[..n], keys);
      assert LeavesOf(db', rows[n].id) == LeavesOf(db, rows[n].id);
      LeafEventsSoundGrows(cr, db.events, db'.events[|db.events|..], LeavesOf(db, rows[n].id));
      assert db.events + db'.events[|db.events|..] == db'.events;
    }
  }

  // ----- stored checkpoints in sequence order -----

  ghost predicate Numbered(rows: seq<Batch>) {
    forall i :: 0 <= i < |rows| ==> rows[i].sequenceNo == i + 1
  }

  lemma SequenceIsPosition(cr: Crypto, db: AuditDb, rows: seq<Batch>, keys: PublicKeys)
    requires HistorySound(cr, db, rows, keys)
    ensures Numbered(rows)
  {
    hide BatchSound, HistorySound;
    forall i | 0 <= i < |rows|
      ensures rows[i].sequenceNo == i + 1
    {
      HistorySoundAt(cr, db, rows, keys, i);
    }
  }

  lemma NumberedThrough(rows: seq<Batch>, k: nat)
    requires Numbered(rows) && k <= |rows|
    ensures OrderBy(Where(rows, UpTo(Some(k))), BatchKey) == rows[..k]
  {
    WherePrefix(rows, UpTo(Some(k)), k);
    OrderByOrderedRows(rows[..k], BatchKey);
  }

  lemma NumberedAll(rows: seq<Batch>)
    requires Numbered(rows)
    ensures OrderBy(Where(rows, UpTo(None)), BatchKey) == rows
  {
    WhereAll(rows, UpTo(None));
    OrderByOrderedRows(rows, BatchKey);
  }

  /** A table of numbered checkpoints, queried through sequence k, is its first k rows. */
  lemma BatchesThroughPrefix(cr: Crypto, db: AuditDb, keys: PublicKeys, k: nat)
    requires HistorySound(cr, db, db.batches, keys) && k <= |db.batches|
    ensures BatchesThrough(db, Some(k)) == db.batches[..k]
    ensures BatchesThrough(db, None) == db.batches
  {
    hide HistorySound;
    SequenceIsPosition(cr, db, db.batches, keys);
    NumberedThrough(db.batches, k);
    NumberedAll(db.batches);
  }

  // ----- a committed batch is sound -----

  lemma NewBatchHeaderSound(cr: Crypto, latest: Option<Batch>, events: seq<Event>, signer: Signer, id: nat, now: int, keys: PublicKeys)
    requires cr.SignaturesVerify() && ConfigurationValid(cr, signer, keys)
    requires 1 <= |events| <= MAX_BATCH_SIZE
    requires latest.Some? ==> latest.value.sequenceNo >= 1 && latest.value.checkpointHash.Hex?
    ensures HeaderSound(cr, NewBatch(cr, latest, events, signer, id, now), keys)
  {
    hide EventRoot, ValidKeyId;
    var b := NewBatch(cr, latest, events, signer, id, now);
    var draft := b.(checkpointHash := Malformed(""), signature := "");
    assert CheckpointOf(b) == CheckpointOf(draft);
    assert b.checkpointHash == CheckpointHash(cr, CheckpointOf(b));
    assert cr.verifies(keys[signer.keyId], cr.sign(signer.seed, b.checkpointHash.digest), b.checkpointHash.digest);
  }

  lemma NewBatchLeavesSound(cr: Crypto, latest: Option<Batch>, events: seq<Event>, signer: Signer, id: nat, now: int)
    requires events != []
    ensures LeavesSound(cr, NewBatch(cr, latest, events, signer, id, now), LeavesFor(cr, id, events))
  {
    hide EventRoot, CheckpointHash, CheckpointOf;
  }

  lemma {:induction false} FindStoredEvent(events: seq<Event>, e: Event)
    requires DistinctIds(events) && e in events
    ensures FindEvent(events, e.id) == Some(e)
  {
    if events[0] != e {
      assert e in events[1..] by {
        var i :| 0 <= i < |events| && events[i] == e;
        assert events[1..][i - 1] == e;
      }
      DistinctEventsDistinctIds(events, events[0], e);
      FindStoredEvent(events[1..], e);
    }
  }

  lemma NewLeafEventsSound(cr: Crypto, stored: seq<Event>, events: seq<Event>, id: nat)
    requires EventsGood(cr, stored) && DistinctIds(events)
    requires forall i :: 0 <= i < |events| ==> events[i] in stored
    ensures LeafEventsSound(cr, stored, LeavesFor(cr, id, events))
    ensures LeafEventsKnown(stored, LeavesFor(cr, id, events))
  {
    hide ChainsValid;
    var leaves := LeavesFor(cr, id, events);
    forall i | 0 <= i < |leaves|
      ensures LeafEventSound(cr, stored, leaves[i])
    {
      FindStoredEvent(stored, events[i]);
      StoredEventSound(cr, stored, events[i]);
    }
  }

  // ----- leaf rows of old and new batches -----

  lemma OldLeavesUnchanged(cr: Crypto, leaves: seq<Leaf>, id: nat, events: seq<Event>, old': nat)
    requires old' != id
    ensures Where(leaves + LeavesFor(cr, id, events), OfBatch(old')) == Where(leaves, OfBatch(old'))
  {
    var more := LeavesFor(cr, id, events);
    WhereConcat(leaves, more, OfBatch(old'));
    WhereNone(more, OfBatch(old'));
    assert Where(leaves, OfBatch(old')) + [] == Where(leaves, OfBatch(old'));
  }

  lemma NewLeavesFound(cr: Crypto, leaves: seq<Leaf>, id: nat, events: seq<Event>)
    requires forall i :: 0 <= i < |leaves| ==> leaves[i].batchId != id
    ensures OrderBy(Where(leaves + LeavesFor(cr, id, events), OfBatch(id)), LeafKey) == LeavesFor(cr, id, events)
  {
    var more := LeavesFor(cr, id, events);
    WhereConcat(leaves, more, OfBatch(id));
    WhereNone(leaves, OfBatch(id));
    WhereAll(more, OfBatch(id));
    assert [] + more == more;
    OrderByOrderedRows(more, LeafKey);
  }

  predicate FreshBatchId(db: AuditDb, id: nat) {
    forall i :: 0 <= i < |db.batches| ==> db.batches[i].id != id
  }

  lemma CommitExtends(cr: Crypto, db: AuditDb, events: seq<Event>, signer: Signer, id: nat, now: int)
    requires events != [] && FreshBatchId(db, id)
    ensures Extends(db, WithBatch(cr, db, events, signer, id, now))
  {
    hide NewBatch, LatestBatch, LeavesFor;
    var db' := WithBatch(cr, db, events, signer, id, now);
    forall i | 0 <= i < |db.batches|
      ensures LeavesOf(db', db.batches[i].id) == LeavesOf(db, db.batches[i].id)
    {
      OldLeavesUnchanged(cr, db.leaves, id, events, db.batches[i].id);
    }
  }

  lemma CommittedLeaves(cr: Crypto, db: AuditDb, events: seq<Event>, signer: Signer, id: nat, now: int, keys: PublicKeys)
    requires AuditGood(cr, db, keys) && FreshBatchId(db, id) && events != []
    ensures LeavesOf(WithBatch(cr, db, events, signer, id, now), id) == LeavesFor(cr, id, events)
  {
    hide HistorySound, EventsGood, LeavesFor, NewBatch;
    forall i | 0 <= i < |db.leaves|
      ensures db.leaves[i].batchId != id
    {
      assert BatchKnown(db.batches, db.leaves[i].batchId);
    }
    NewLeavesFound(cr, db.leaves, id, events);
  }

  lemma CommitKeepsHistory(cr: Crypto, db: AuditDb, events: seq<Event>, signer: Signer, id: nat, now: int, keys: PublicKeys)
    requires AuditGood(cr, db, keys) && FreshBatchId(db, id)
    requires cr.SignaturesVerify() && ConfigurationValid(cr, signer, keys)
    requires 1 <= |events| <= MAX_BATCH_SIZE && DistinctIds(events)
    requires forall i :: 0 <= i < |events| ==> events[i] in db.events
    ensures var db' := WithBatch(cr, db, events, signer, id, now); HistorySound(cr, db', db'.batches, keys)
  {
    hide HistorySound, EventsGood, LeavesFor, LeavesOf, ConfigurationValid, HeaderSound, LeavesSound, LeafEventsSound, LeafTableGood, DistinctIds;
    var db' := WithBatch(cr, db, events, signer, id, now);
    var n, b := |db.batches|, db'.batches[|db.batches|];
    CommitExtends(cr, db, events, signer, id, now);
    HistorySoundExtends(cr, db, db', db.batches, keys);
    BatchesThroughPrefix(cr, db, keys, 0);
    LatestIsWellFormed(cr, db, keys);
    NewBatchHeaderSound(cr, LatestBatch(db), events, signer, id, now, keys);
    NewBatchLeavesSound(cr, LatestBatch(db), events, signer, id, now);
    NewLeafEventsSound(cr, db.events, events, id);
    CommittedLeaves(cr, db, events, signer, id, now, keys);
    HistoryExtendsByOne(cr, db', db.batches, b, keys);
  }

  lemma LatestIsWellFormed(cr: Crypto, db: AuditDb, keys: PublicKeys)
    requires HistorySound(cr, db, db.batches, keys)
    ensures LatestBatch(db) == if db.batches == [] then None else Some(db.batches[|db.batches| - 1])
    ensures db.batches != [] ==> var latest := db.batches[|db.batches| - 1];
              latest.sequenceNo == |db.batches| && latest.checkpointHash.Hex?
  {
    hide LeavesSound, LeafEventsSound, HistorySound;
    BatchesThroughPrefix(cr, db, keys, 0);
    if db.batches != [] {
      HistorySoundAt(cr, db, db.batches, keys, |db.batches| - 1);
    }
  }

  lemma HistoryExtendsByOne(cr: Crypto, db: AuditDb, rows: seq<Batch>, b: Batch, keys: PublicKeys)
    requires HistorySound(cr, db, rows, keys) && BatchSound(cr, db, b, keys)
    requires b.sequenceNo == |rows| + 1
    requires b.previousCheckpointHash == if rows == [] then None else Some(rows[|rows| - 1].checkpointHash)
    ensures HistorySound(cr, db, rows + [b], keys)
  {
    hide BatchSound;
    var all, n := rows + [b], |rows|;
    assert all[..n] == rows && all[n] == b;
    assert BatchLinked(all, n);
  }

  lemma NewLeafBatchesKnown(cr: Crypto, db: AuditDb, events: seq<Event>, signer: Signer, id: nat, now: int)
    requires LeafBatchesKnown(db.batches, db.leaves) && events != []
    ensures var db' := WithBatch(cr, db, events, signer, id, now); LeafBatchesKnown(db'.batches, db'.leaves)
  {
    hide LatestBatch;
    var db' := WithBatch(cr, db, events, signer, id, now);
    forall i | 0 <= i < |db'.leaves|
      ensures BatchKnown(db'.batches, db'.leaves[i].batchId)
    {
      if i < |db.leaves| {
        assert BatchKnown(db.batches, db.leaves[i].batchId);
        var j :| 0 <= j < |db.batches| && db.batches[j].id == db.leaves[i].batchId;
        assert db'.batches[j].id == db'.leaves[i].batchId;
      } else {
        assert db'.batches[|db.batches|].id == id;
      }
    }
  }

  lemma CommitKeepsLeafTable(cr: Crypto, db: AuditDb, events: seq<Event>, signer: Signer, id: nat, now: int)
    requires EventsGood(cr, db.events) && LeafTableGood(db) && events != [] && DistinctIds(events)
    requires forall i :: 0 <= i < |events| ==> events[i] in db.events && !Covered(db.leaves, events[i].id)
    ensures LeafTableGood(WithBatch(cr, db, events, signer, id, now))
  {
    hide EventsGood, LatestBatch, LeafEventsSound, LeafBatchesKnown;
    NewLeafEventsSound(cr, db.events, events, id);
    NewLeafBatchesKnown(cr, db, events, signer, id, now);
  }

  /** Cutting a batch from uncovered stored events keeps the audit tables good. */
  lemma CommitKeepsAuditGood(cr: Crypto, db: AuditDb, events: seq<Event>, signer: Signer, id: nat, now: int, keys: PublicKeys)
    requires AuditGood(cr, db, keys) && FreshBatchId(db, id)
    requires cr.SignaturesVerify() && ConfigurationValid(cr, signer, keys)
    requires 1 <= |events| <= MAX_BATCH_SIZE && DistinctIds(events)
    requires forall i :: 0 <= i < |events| ==> events[i] in db.events && !Covered(db.leaves, events[i].id)
    ensures AuditGood(cr, WithBatch(cr, db, events, signer, id, now), keys)
  {
    hide HistorySound, EventsGood, LeafTableGood, LatestBatch, LeavesFor, Covered;
    CommitKeepsHistory(cr, db, events, signer, id, now, keys);
    CommitKeepsLeafTable(cr, db, events, signer, id, now);
  }

  /** Committing turns selected events into covered ones. */
  lemma CommitCovers(cr: Crypto, db: AuditDb, events: seq<Event>, id: nat, e: Event)
    requires DistinctIds(db.events) && e in db.events
    requires forall i :: 0 <= i < |events| ==> events[i] in db.events
    ensures Covered(db.leaves + LeavesFor(cr, id, events), e.id) <==> Taken(db.leaves, events, e)
  {
    var more := LeavesFor(cr, id, events);
    var all := db.leaves + more;
    if Covered(db.leaves, e.id) {
      var i :| 0 <= i < |db.leaves| && db.leaves[i].eventId == e.id;
      assert all[i].eventId == e.id;
    } else if e in events {
      var i :| 0 <= i < |events| && events[i] == e;
      assert all[|db.leaves| + i] == more[i];
      assert all[|db.leaves| + i].eventId == e.id;
    } else {
      forall i | 0 <= i < |all|
        ensures all[i].eventId != e.id
      {
        if i >= |db.leaves| {
          DistinctEventsDistinctIds(db.events, events[i - |db.leaves|], e);
        }
      }
    }
  }
}
