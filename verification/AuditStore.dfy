/** The audit tables as the services change them: logging an event, cutting one
    checkpoint, and draining everything pending. */
module AuditStore {
  import opened Hashing
  import opened Rows
  import opened MerkleTree
  import opened EventChain
  import opened AuditLog
  import opened Checkpointing
  import AuditRuns

  datatype CheckpointError = BatchSizeInvalid | SigningConfigurationInvalid | MissingIntegrityMetadata | EventHashFailed

  datatype BatchSummary = BatchSummary(sequenceNo: int, leafCount: int, merkleRoot: HashText)

  function Summary(b: Batch): BatchSummary { BatchSummary(b.sequenceNo, b.leafCount, b.merkleRoot) }

  predicate AllHaveMetadata(events: seq<Event>) {
    forall i :: 0 <= i < |events| ==> HasMetadata(events[i])
  }

  predicate AllHashesCheck(cr: Crypto, events: seq<Event>) {
    forall i :: 0 <= i < |events| ==> HashChecks(cr, events[i])
  }

  /** Why a checkpoint is refused, in the order the checks are made. */
  function CheckpointFault(cr: Crypto, db: AuditDb, maxLeaves: int, signer: Signer, keys: PublicKeys): Option<CheckpointError> {
    if !(1 <= maxLeaves <= MAX_BATCH_SIZE) then Some(BatchSizeInvalid)
    else if !ConfigurationValid(cr, signer, keys) then Some(SigningConfigurationInvalid)
    else if !AllHaveMetadata(db.events) then Some(MissingIntegrityMetadata)
    else if !AllHashesCheck(cr, Selection(db, maxLeaves)) then Some(EventHashFailed)
    else None
  }

  // ----- what one checkpoint leaves pending -----

  lemma SelectionOfPending(db: AuditDb, maxLeaves: nat)
    ensures Selection(db, maxLeaves) == Pending(db)[..|Selection(db, maxLeaves)|]
    ensures |Selection(db, maxLeaves)| == if |Pending(db)| <= maxLeaves then |Pending(db)| else maxLeaves
  {
  }

  /** A checkpoint takes the first pending events and leaves the others, in order. */
  lemma PendingAfterCommit(cr: Crypto, db: AuditDb, taken: nat, signer: Signer, id: nat, now: int)
    requires DistinctIds(db.events) && 0 < taken <= |Pending(db)|
    ensures Pending(WithBatch(cr, db, Pending(db)[..taken], signer, id, now)) == Pending(db)[taken..]
  {
    hide LatestBatch, NewBatch, LeavesFor, Pending, HasMetadata, Covered;
    var pending := Pending(db);
    var selected, rest := pending[..taken], pending[taken..];
    var db' := WithBatch(cr, db, selected, signer, id, now);
    PendingOrdered(db);
    PendingOrdered(db');
    forall i | 0 <= i < |selected|
      ensures selected[i] in db.events
    {
      assert selected[i] in pending;
    }
    forall e | e in Pending(db')
      ensures e in rest
    {
      CommitCovers(cr, db, selected, id, e);
      assert e in pending && e !in selected;
      assert pending == selected + rest;
    }
    forall e | e in rest
      ensures e in Pending(db')
    {
      assert e in pending;
      CommitCovers(cr, db, selected, id, e);
      NotInFront(pending, taken, e);
    }
    OrderedUnique(Pending(db'), rest, EventKey);
  }

  lemma NotInFront(rows: seq<Event>, k: nat, e: Event)
    requires Ordered(rows, EventKey) && k <= |rows| && e in rows[k..]
    ensures e !in rows[..k]
  {
    var j :| 0 <= j < |rows[k..]| && rows[k..][j] == e;
    forall i | 0 <= i < k
      ensures rows[i] != e
    {
      assert Before(EventKey(rows[i]), EventKey(rows[k + j]));
    }
  }

  function CeilDiv(n: nat, d: nat): nat
    requires d > 0
  {
    if n == 0 then 0 else if n <= d then 1 else 1 + CeilDiv(n - d, d)
  }

  lemma {:induction false} CeilDivIsCeiling(n: nat, d: nat)
    requires d > 0
    ensures CeilDiv(n, d) * d >= n
    ensures n > 0 ==> (CeilDiv(n, d) - 1) * d < n
  {
    if n > d {
      CeilDivIsCeiling(n - d, d);
    }
  }

  predicate AllFull(created: seq<BatchSummary>, maxLeaves: int) {
    forall i :: 0 <= i < |created| ==> created[i].leafCount == maxLeaves
  }

  /** The first `taken` pending events got leaves, in order. */
  ghost predicate LeavesDrained(before: AuditDb, after: AuditDb, taken: nat) {
    && taken <= |Pending(before)|
    && Pending(after) == Pending(before)[taken..]
    && after.events == before.events
    && before.leaves <= after.leaves && |after.leaves| == |before.leaves| + taken
    && (forall i :: 0 <= i < taken ==> after.leaves[|before.leaves| + i].eventId == Pending(before)[i].id)
  }

  /** The new batches continue the numbering and all but the last are full. */
  ghost predicate BatchesDrained(before: AuditDb, after: AuditDb, created: seq<BatchSummary>, maxLeaves: int) {
    && before.batches <= after.batches
    && |after.batches| == |before.batches| + |created|
    && (forall i :: 0 <= i < |created| ==>
          && created[i] == Summary(after.batches[|before.batches| + i])
          && created[i].sequenceNo == |before.batches| + 1 + i && 1 <= created[i].leafCount <= maxLeaves)
    && (created == [] || AllFull(created[..|created| - 1], maxLeaves))
  }

  /** No fewer and no more batches than the events taken need. */
  ghost predicate BatchCount(before: AuditDb, after: AuditDb, created: nat, maxLeaves: int) {
    && 1 <= maxLeaves
    && created + CeilDiv(|Pending(after)|, maxLeaves) == CeilDiv(|Pending(before)|, maxLeaves)
  }

  /** What a drain leaves behind after taking `taken` pending events. */
  ghost predicate DrainedTo(before: AuditDb, after: AuditDb, created: seq<BatchSummary>, taken: nat, maxLeaves: int) {
    LeavesDrained(before, after, taken) && BatchesDrained(before, after, created, maxLeaves) && BatchCount(before, after, |created|, maxLeaves)
  }

  lemma NothingDrained(db: AuditDb, maxLeaves: int)
    requires 1 <= maxLeaves
    ensures DrainedTo(db, db, [], 0, maxLeaves)
  {
    hide Pending, CeilDiv;
  }

  lemma AllTaken(before: AuditDb, after: AuditDb, created: seq<BatchSummary>, taken: nat, maxLeaves: int)
    requires DrainedTo(before, after, created, taken, maxLeaves) && Pending(after) == []
    ensures taken == |Pending(before)| && |created| == CeilDiv(|Pending(before)|, maxLeaves)
  {
    hide Pending;
  }

  lemma DrainStep(cr: Crypto, keys: PublicKeys, before: AuditDb, db: AuditDb, created: seq<BatchSummary>, taken: nat, maxLeaves: nat,
                  signer: Signer, id: nat, now: int)
    requires 1 <= maxLeaves <= MAX_BATCH_SIZE
    requires AuditGood(cr, db, keys) && DrainedTo(before, db, created, taken, maxLeaves)
    requires Selection(db, maxLeaves) != [] && AllFull(created, maxLeaves)
    ensures var selected := Selection(db, maxLeaves);
            var db' := WithBatch(cr, db, selected, signer, id, now);
            var created' := created + [Summary(db'.batches[|db.batches|])];
            && DrainedTo(before, db', created', taken + |selected|, maxLeaves)
            && (Pending(db') != [] ==> AllFull(created', maxLeaves))
  {
    hide Pending, NewBatch, LeavesFor, AuditGood, LeavesDrained, Selection, CeilDiv;
    SelectionOfPending(db, maxLeaves);
    DrainStepPending(cr, keys, db, maxLeaves, signer, id, now);
    DrainStepLeaves(cr, keys, before, db, taken, maxLeaves, signer, id, now);
    NewBatchNumbers(cr, db, keys, Selection(db, maxLeaves), signer, id, now);
    CeilDivStep(|Pending(db)|, maxLeaves);
    var db' := WithBatch(cr, db, Selection(db, maxLeaves), signer, id, now);
    var created' := created + [Summary(db'.batches[|db.batches|])];
    assert created'[..|created|] == created;
  }

  lemma CeilDivStep(n: nat, d: nat)
    requires d > 0 && n > 0
    ensures CeilDiv(n, d) == 1 + CeilDiv(if n <= d then 0 else n - d, d)
  {
  }

  lemma DrainStepLeaves(cr: Crypto, keys: PublicKeys, before: AuditDb, db: AuditDb, taken: nat, maxLeaves: nat,
                        signer: Signer, id: nat, now: int)
    requires 1 <= maxLeaves <= MAX_BATCH_SIZE
    requires AuditGood(cr, db, keys) && LeavesDrained(before, db, taken)
    requires Selection(db, maxLeaves) != []
    ensures var selected := Selection(db, maxLeaves);
            LeavesDrained(before, WithBatch(cr, db, selected, signer, id, now), taken + |selected|)
  {
    hide Pending, NewBatch, LeavesFor, AuditGood, Selection;
    var selected := Selection(db, maxLeaves);
    SelectionOfPending(db, maxLeaves);
    var db' := WithBatch(cr, db, selected, signer, id, now);
    DrainStepPending(cr, keys, db, maxLeaves, signer, id, now);
    assert Pending(before)[taken..][|selected|..] == Pending(before)[taken + |selected|..];
    NewLeafIds(cr, id, selected);
    forall i | 0 <= i < taken + |selected|
      ensures db'.leaves[|before.leaves| + i].eventId == Pending(before)[i].id
    {
      if i >= taken {
        assert db'.leaves[|before.leaves| + i] == LeavesFor(cr, id, selected)[i - taken];
        assert selected[i - taken] == Pending(before)[taken..][i - taken];
      }
    }
  }

  lemma DrainStepPending(cr: Crypto, keys: PublicKeys, db: AuditDb, maxLeaves: nat, signer: Signer, id: nat, now: int)
    requires maxLeaves > 0 && AuditGood(cr, db, keys) && Selection(db, maxLeaves) != []
    ensures var selected := Selection(db, maxLeaves);
            Pending(WithBatch(cr, db, selected, signer, id, now)) == Pending(db)[|selected|..]
  {
    hide Pending, WithBatch, HistorySound, ChainsValid;
    SelectionOfPending(db, maxLeaves);
    PendingAfterCommit(cr, db, |Selection(db, maxLeaves)|, signer, id, now);
  }

  lemma NewLeafIds(cr: Crypto, id: nat, events: seq<Event>)
    ensures |LeavesFor(cr, id, events)| == |events|
    ensures forall i :: 0 <= i < |events| ==> LeavesFor(cr, id, events)[i].eventId == events[i].id
  {
  }

  lemma NewBatchNumbers(cr: Crypto, db: AuditDb, keys: PublicKeys, events: seq<Event>, signer: Signer, id: nat, now: int)
    requires AuditGood(cr, db, keys) && events != []
    ensures var b := NewBatch(cr, LatestBatch(db), events, signer, id, now);
            b.sequenceNo == |db.batches| + 1 && b.leafCount == |events| && b.id == id
  {
    hide HistorySound, EventsGood, LatestBatch, EventRoot, LeavesFor;
    LatestIsWellFormed(cr, db, keys);
  }

  lemma SelectionIsStored(cr: Crypto, db: AuditDb, keys: PublicKeys, maxLeaves: nat)
    requires AuditGood(cr, db, keys) && maxLeaves <= MAX_BATCH_SIZE
    ensures AuditRuns.SelectionGood(db, Selection(db, maxLeaves))
  {
    hide HistorySound, ChainsValid, Pending, Covered;
    PendingOrdered(db);
    AuditRuns.PendingDistinct(db);
    SelectionOfPending(db, maxLeaves);
    var pending, selected := Pending(db), Selection(db, maxLeaves);
    forall i | 0 <= i < |selected|
      ensures selected[i] in db.events && !Covered(db.leaves, selected[i].id)
    {
      assert selected[i] == pending[i] && pending[i] in pending;
    }
  }

  lemma CheckpointKeepsAuditGood(cr: Crypto, db: AuditDb, keys: PublicKeys, maxLeaves: nat, signer: Signer, id: nat, now: int)
    requires AuditGood(cr, db, keys) && FreshBatchId(db, id)
    requires cr.SignaturesVerify() && ConfigurationValid(cr, signer, keys)
    requires maxLeaves <= MAX_BATCH_SIZE && Selection(db, maxLeaves) != []
    ensures AuditGood(cr, WithBatch(cr, db, Selection(db, maxLeaves), signer, id, now), keys)
  {
    hide Selection, AuditGood, WithBatch, DistinctIds, Covered, ConfigurationValid;
    SelectionIsStored(cr, db, keys, maxLeaves);
    CommitKeepsAuditGood(cr, db, Selection(db, maxLeaves), signer, id, now, keys);
  }

  /** In a good state a checkpoint is refused exactly for its arguments. */
  lemma GoodStateFault(cr: Crypto, db: AuditDb, keys: PublicKeys, maxLeaves: int, signer: Signer)
    requires AuditGood(cr, db, keys)
    ensures CheckpointFault(cr, db, maxLeaves, signer, keys).None? <==>
              1 <= maxLeaves <= MAX_BATCH_SIZE && ConfigurationValid(cr, signer, keys)
  {
    hide HistorySound, ChainsValid, ConfigurationValid, Selection, ScopesAssigned;
    forall i | 0 <= i < |db.events|
      ensures HasMetadata(db.events[i]) && HashChecks(cr, db.events[i])
    {
      StoredEventSound(cr, db.events, db.events[i]);
    }
    if 1 <= maxLeaves <= MAX_BATCH_SIZE {
      SelectionIsStored(cr, db, keys, maxLeaves);
      forall i | 0 <= i < |Selection(db, maxLeaves)|
        ensures HashChecks(cr, Selection(db, maxLeaves)[i])
      {
        assert Selection(db, maxLeaves)[i] in db.events;
      }
    }
  }

  lemma NewBatchId(cr: Crypto, db: AuditDb, events: seq<Event>, signer: Signer, id: nat, now: int)
    requires events != []
    ensures NewBatch(cr, LatestBatch(db), events, signer, id, now).id == id
  {
  }

  lemma CheckpointAdvances(cr: Crypto, db: AuditDb, maxLeaves: nat, signer: Signer, id: nat, now: int)
    requires DistinctIds(db.events) && Selection(db, maxLeaves) != []
    ensures var db' := WithBatch(cr, db, Selection(db, maxLeaves), signer, id, now);
            |Pending(db')| < |Pending(db)| && db'.events == db.events
  {
    hide Pending, NewBatch, LeavesFor, DistinctIds;
    SelectionOfPending(db, maxLeaves);
    PendingAfterCommit(cr, db, |Selection(db, maxLeaves)|, signer, id, now);
  }

  class Store {
    const cr: Crypto
    var db: AuditDb
    /** Stands for UUID generation: batch ids below it are used up. */
    var nextBatchId: nat

    ghost predicate Valid()
      reads this
    {
      && DistinctIds(db.events)
      && forall i :: 0 <= i < |db.batches| ==> db.batches[i].id < nextBatchId
    }

    constructor (cr: Crypto)
      ensures Valid() && this.cr == cr && db == AuditDb([], [], [])
    {
      this.cr := cr;
      db := AuditDb([], [], []);
      nextBatchId := 0;
    }

    /** One event is stored, already linked, in the caller's transaction. */
    method LogEvent(id: nat, channelId: Option<nat>, actorId: Option<nat>, eventType: string, payload: string, now: int)
      returns (event: Event)
      requires Valid() && AuditRuns.FreshEvent(db.events, id)
      modifies this`db
      ensures Valid()
      ensures db == WithEvent(cr, old(db), Event(id, channelId, actorId, eventType, now, payload, None, None, None, None, None))
      ensures db.events == old(db.events) + [event] && event.id == id
      ensures forall keys :: old(AuditGood(cr, db, keys)) ==> AuditGood(cr, db, keys)
    {
      hide AuditGood;
      var scope := ScopeOf(channelId);
      var draft := Event(id, channelId, actorId, eventType, now, payload, None, None, None, None, None);
      event := AttachIntegrity(cr.events, db.events, draft, scope);
      ghost var before := db;
      db := db.(events := db.events + [event]);
      forall keys | AuditGood(cr, before, keys)
        ensures AuditGood(cr, db, keys)
      {
        AuditRuns.AppendKeepsAuditGood(cr, before, draft, keys);
      }
    }

    /** Cut one checkpoint over the first pending events, or say why not. */
    method CreateCheckpoint(maxLeaves: int, signer: Signer, keys: PublicKeys, now: int)
      returns (r: Result<Option<Batch>, CheckpointError>)
      requires Valid()
      modifies this
      ensures Valid()
      ensures r.Err? ==> CheckpointFault(cr, old(db), maxLeaves, signer, keys) == Some(r.error)
      ensures r.Ok? ==> CheckpointFault(cr, old(db), maxLeaves, signer, keys).None?
      ensures r.Err? || r.value.None? ==> db == old(db)
      ensures r.Ok? ==> (r.value.None? <==> Pending(old(db)) == [])
      ensures r.Ok? && r.value.Some? ==>
                && var selected := Selection(old(db), maxLeaves);
                && selected != []
                && db == WithBatch(cr, old(db), selected, signer, old(nextBatchId), now)
                && r.value.value == db.batches[|old(db.batches)|]
      ensures old(AuditGood(cr, db, keys)) && cr.SignaturesVerify() ==> AuditGood(cr, db, keys)
    {
      hide AuditGood, Pending, NewBatch, LeavesFor, HashChecks, ConfigurationValid, LatestBatch, Selection, HasMetadata;
      if !(1 <= maxLeaves <= MAX_BATCH_SIZE) { return Err(BatchSizeInvalid); }
      if !ConfigurationValid(cr, signer, keys) { return Err(SigningConfigurationInvalid); }
      if !AllHaveMetadata(db.events) { return Err(MissingIntegrityMetadata); }
      var selected := Selection(db, maxLeaves);
      SelectionOfPending(db, maxLeaves);
      if selected == [] { return Ok(None); }
      var i := 0;
      while i < |selected|
        invariant 0 <= i <= |selected|
        invariant forall j :: 0 <= j < i ==> HashChecks(cr, selected[j])
      {
        if !HashChecks(cr, selected[i]) { return Err(EventHashFailed); }
        i := i + 1;
      }
      NewBatchId(cr, db, selected, signer, nextBatchId, now);
      var batch := NewBatch(cr, LatestBatch(db), selected, signer, nextBatchId, now);
      ghost var before, id := db, nextBatchId;
      db := db.(batches := db.batches + [batch], leaves := db.leaves + LeavesFor(cr, nextBatchId, selected));
      nextBatchId := nextBatchId + 1;
      if AuditGood(cr, before, keys) && cr.SignaturesVerify() {
        CheckpointKeepsAuditGood(cr, before, keys, maxLeaves, signer, id, now);
      }
      r := Ok(Some(batch));
    }

    /** Commit checkpoints until nothing is pending (or just one). `clock(k)` is the time
        the k-th of them is stamped with. */
    method CheckpointPending(maxLeaves: int, allPending: bool, signer: Signer, keys: PublicKeys, clock: nat -> int)
      returns (r: Result<seq<BatchSummary>, CheckpointError>)
      requires Valid()
      modifies this
      ensures Valid()
      ensures db.events == old(db.events)
      ensures r.Err? ==> CheckpointFault(cr, db, maxLeaves, signer, keys) == Some(r.error)
      ensures r.Ok? && allPending ==> Pending(db) == []
      ensures old(AuditGood(cr, db, keys)) && cr.SignaturesVerify() ==>
                && AuditGood(cr, db, keys)
                && (r.Ok? <==> 1 <= maxLeaves <= MAX_BATCH_SIZE && ConfigurationValid(cr, signer, keys))
                && (r.Ok? ==> exists taken :: DrainedTo(old(db), db, r.value, taken, maxLeaves))
                && (r.Ok? && allPending ==> DrainedTo(old(db), db, r.value, |Pending(old(db))|, maxLeaves))
    {
      hide AuditGood, Pending, WithBatch, HashChecks, ConfigurationValid, Selection, HasMetadata, DrainedTo, DistinctIds;
      var created: seq<BatchSummary> := [];
      ghost var before := db;
      ghost var taken: nat := 0;
      ghost var good := AuditGood(cr, db, keys) && cr.SignaturesVerify();
      ghost var callable := 1 <= maxLeaves <= MAX_BATCH_SIZE && ConfigurationValid(cr, signer, keys);
      if good && callable { NothingDrained(db, maxLeaves); }
      while true
        invariant Valid() && db.events == before.events
        invariant good ==> AuditGood(cr, db, keys)
        invariant callable || created == []
        invariant good && callable ==>
                    && DrainedTo(before, db, created, taken, maxLeaves)
                    && (Pending(db) != [] ==> AllFull(created, maxLeaves))
        decreases |Pending(db)|
      {
        if good { GoodStateFault(cr, db, keys, maxLeaves, signer); }
        ghost var db0, id := db, nextBatchId;
        var batch := CreateCheckpoint(maxLeaves, signer, keys, clock(|created|));
        if batch.Err? { return Err(batch.error); }
        if batch.value.None? { break; }
        CheckpointAdvances(cr, db0, maxLeaves, signer, id, clock(|created|));
        if good && callable {
          DrainStep(cr, keys, before, db0, created, taken, maxLeaves, signer, id, clock(|created|));
          taken := taken + |Selection(db0, maxLeaves)|;
        }
        created := created + [Summary(batch.value.value)];
        if !allPending { break; }
      }
      if good && allPending { AllTaken(before, db, created, taken, maxLeaves); }
      r := Ok(created);
    }
  }
}
