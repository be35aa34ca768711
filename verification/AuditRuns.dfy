/** Every interleaving of event appends by the backend and the worker with checkpoint
    transactions. A checkpoint reads its selection in one step and commits it in another;
    the checkpoint lock admits one at a time, appends may fall in between. */
module AuditRuns {
  import opened Hashing
  import opened KeyIds
  import opened Rows
  import opened MerkleTree
  import opened EventChain
  import opened AuditLog
  import opened Checkpointing
  import opened Anchors

  datatype LogState = LogState(db: AuditDb, selected: Option<seq<Event>>)

  /** Everything fixed for a run. */
  datatype Site = Site(cr: Crypto, keys: PublicKeys, signer: Signer) {
    ghost predicate Valid() {
      cr.SignaturesVerify() && ConfigurationValid(cr, signer, keys)
    }
  }

  datatype Action =
    | Append(event: Event)
    | BeginCheckpoint(maxLeaves: int)
    | CommitCheckpoint(batchId: nat, now: int)
    | AbandonCheckpoint

  predicate FreshEvent(events: seq<Event>, id: nat) {
    forall i :: 0 <= i < |events| ==> events[i].id != id
  }

  predicate Enabled(s: LogState, a: Action) {
    match a
    case Append(event) => FreshEvent(s.db.events, event.id)
    case BeginCheckpoint(maxLeaves) => s.selected.None? && 1 <= maxLeaves <= MAX_BATCH_SIZE && Selection(s.db, maxLeaves) != []
    case CommitCheckpoint(batchId, _) => s.selected.Some? && s.selected.value != [] && FreshBatchId(s.db, batchId)
    case AbandonCheckpoint => s.selected.Some?
  }

  function Apply(site: Site, s: LogState, a: Action): LogState
    requires Enabled(s, a)
  {
    match a
    case Append(event) => s.(db := WithEvent(site.cr, s.db, event))
    case BeginCheckpoint(maxLeaves) => s.(selected := Some(Selection(s.db, maxLeaves)))
    case CommitCheckpoint(batchId, now) => LogState(WithBatch(site.cr, s.db, s.selected.value, site.signer, batchId, now), None)
    case AbandonCheckpoint => s.(selected := None)
  }

  predicate Legal(site: Site, s: LogState, run: seq<Action>)
    decreases |run|
  {
    run == [] || (Enabled(s, run[0]) && Legal(site, Apply(site, s, run[0]), run[1..]))
  }

  function After(site: Site, s: LogState, run: seq<Action>): LogState
    requires Legal(site, s, run)
    decreases |run|
  {
    if run == [] then s else After(site, Apply(site, s, run[0]), run[1..])
  }

  const EMPTY := LogState(AuditDb([], [], []), None)

  function SelectedOf(s: LogState): seq<Event> {
    if s.selected.Some? then s.selected.value else []
  }

  ghost predicate SelectionGood(db: AuditDb, selected: seq<Event>) {
    && |selected| <= MAX_BATCH_SIZE
    && DistinctIds(selected)
    && forall i :: 0 <= i < |selected| ==> selected[i] in db.events && !Covered(db.leaves, selected[i].id)
  }

  ghost predicate Invariant(site: Site, s: LogState) {
    && AuditGood(site.cr, s.db, site.keys)
    && SelectionGood(s.db, SelectedOf(s))
    && PrefixTaken(s.db.events, s.db.leaves, SelectedOf(s))
    && PrefixTaken(s.db.events, s.db.leaves, [])
  }

  // ----- append -----

  lemma AppendKeepsChains(cr: Crypto, db: AuditDb, event: Event)
    requires ChainsValid(cr, db.events)
    ensures ChainsValid(cr, WithEvent(cr, db, event).events)
  {
    hide ChainValid, ScopeRows;
    var scope, linked := ScopeOf(event.channelId), Linked(cr, db, event);
    assert ChainValid(cr.events, scope, ScopeRows(db.events, scope));
    AppendExtendsChain(cr.events, db.events, event, scope, linked);
    forall other
      ensures ChainValid(cr.events, other, ScopeRows(db.events + [linked], other))
    {
      if other != scope {
        assert ScopeRows(db.events + [linked], other) == ScopeRows(db.events, other);
      }
    }
  }

  lemma AppendKeepsEventsGood(cr: Crypto, db: AuditDb, event: Event)
    requires EventsGood(cr, db.events) && FreshEvent(db.events, event.id)
    ensures EventsGood(cr, WithEvent(cr, db, event).events)
  {
    hide ChainsValid;
    AppendKeepsChains(cr, db, event);
    var linked := Linked(cr, db, event);
    assert linked.id == event.id && linked.integrityScope == Some(ScopeOf(linked.channelId));
  }

  lemma LeafEventsKnownGrows(events: seq<Event>, more: seq<Event>, leaves: seq<Leaf>)
    requires LeafEventsKnown(events, leaves)
    ensures LeafEventsKnown(events + more, leaves)
  {
    forall i | 0 <= i < |leaves|
      ensures FindEvent(events + more, leaves[i].eventId).Some?
    {
      FindEventGrows(events, more, leaves[i].eventId);
    }
  }

  lemma AppendKeepsAuditGood(cr: Crypto, db: AuditDb, event: Event, keys: PublicKeys)
    requires AuditGood(cr, db, keys) && FreshEvent(db.events, event.id)
    ensures AuditGood(cr, WithEvent(cr, db, event), keys)
    ensures Extends(db, WithEvent(cr, db, event))
  {
    hide EventsGood, HistorySound, Linked, FreshEvent, LeafEventsKnown, LeafBatchesKnown, LeafEventIdsDistinct;
    var db' := WithEvent(cr, db, event);
    AppendKeepsEventsGood(cr, db, event);
    HistorySoundExtends(cr, db, db', db.batches, keys);
    LeafEventsKnownGrows(db.events, [Linked(cr, db, event)], db.leaves);
  }

  lemma AppendKeepsPrefix(cr: Crypto, db: AuditDb, event: Event, keys: PublicKeys, selected: seq<Event>)
    requires AuditGood(cr, db, keys) && FreshEvent(db.events, event.id)
    requires SelectionGood(db, selected)
    requires PrefixTaken(db.events, db.leaves, selected)
    ensures PrefixTaken(WithEvent(cr, db, event).events, db.leaves, selected)
  {
    hide HistorySound, ChainValid, DistinctIds;
    var scope, linked := ScopeOf(event.channelId), Linked(cr, db, event);
    assert ChainValid(cr.events, scope, ScopeRows(db.events, scope));
    AppendExtendsChain(cr.events, db.events, event, scope, linked);
    NewEventNotTaken(cr, db, event, keys, selected);
    forall sc, i, j | 0 <= i < j < |ScopeRows(db.events + [linked], sc)| && Taken(db.leaves, selected, ScopeRows(db.events + [linked], sc)[j])
      ensures Taken(db.leaves, selected, ScopeRows(db.events + [linked], sc)[i])
    {
      var rows := ScopeRows(db.events, sc);
      assert j < |rows| && ScopeRows(db.events + [linked], sc)[j] == rows[j] && ScopeRows(db.events + [linked], sc)[i] == rows[i];
    }
  }

  lemma NewEventNotTaken(cr: Crypto, db: AuditDb, event: Event, keys: PublicKeys, selected: seq<Event>)
    requires AuditGood(cr, db, keys) && FreshEvent(db.events, event.id) && SelectionGood(db, selected)
    ensures !Taken(db.leaves, selected, Linked(cr, db, event))
  {
    hide HistorySound, ChainValid;
    var linked := Linked(cr, db, event);
    forall i | 0 <= i < |db.leaves|
      ensures db.leaves[i].eventId != linked.id
    {
      assert FindEvent(db.events, db.leaves[i].eventId).value in db.events;
    }
    forall i | 0 <= i < |selected|
      ensures selected[i] != linked
    {
      assert selected[i] in db.events;
    }
  }

  // ----- select -----

  lemma SelectionTakesPrefix(cr: Crypto, db: AuditDb, keys: PublicKeys, maxLeaves: nat)
    requires AuditGood(cr, db, keys) && 1 <= maxLeaves <= MAX_BATCH_SIZE
    requires PrefixTaken(db.events, db.leaves, [])
    ensures SelectionGood(db, Selection(db, maxLeaves))
    ensures PrefixTaken(db.events, db.leaves, Selection(db, maxLeaves))
  {
    hide HistorySound, ChainValid, LeafTableGood;
    var pending, selected := Pending(db), Selection(db, maxLeaves);
    PendingOrdered(db);
    PendingDistinct(db);
    forall i | 0 <= i < |selected|
      ensures selected[i] in db.events && !Covered(db.leaves, selected[i].id)
    {
      assert selected[i] == pending[i] && pending[i] in pending;
    }
    forall scope, i, j | 0 <= i < j < |ScopeRows(db.events, scope)| && Taken(db.leaves, selected, ScopeRows(db.events, scope)[j])
      ensures Taken(db.leaves, selected, ScopeRows(db.events, scope)[i])
    {
      EarlierEventSelected(cr, db, maxLeaves, scope, i, j);
    }
  }

  lemma PendingDistinct(db: AuditDb)
    requires DistinctIds(db.events)
    ensures DistinctIds(Pending(db))
  {
    PendingOrdered(db);
    var pending := Pending(db);
    forall i, j | 0 <= i < j < |pending|
      ensures pending[i].id != pending[j].id
    {
      assert pending[i] in pending && pending[j] in pending;
      assert Before(EventKey(pending[i]), EventKey(pending[j]));
      DistinctEventsDistinctIds(db.events, pending[i], pending[j]);
    }
  }

  lemma EarlierEventSelected(cr: Crypto, db: AuditDb, maxLeaves: nat, scope: Scope, i: nat, j: nat)
    requires EventsGood(cr, db.events) && PrefixTaken(db.events, db.leaves, [])
    requires i < j < |ScopeRows(db.events, scope)|
    requires Taken(db.leaves, Selection(db, maxLeaves), ScopeRows(db.events, scope)[j])
    ensures Taken(db.leaves, Selection(db, maxLeaves), ScopeRows(db.events, scope)[i])
  {
    hide ChainValid;
    var rows, pending, selected := ScopeRows(db.events, scope), Pending(db), Selection(db, maxLeaves);
    if Covered(db.leaves, rows[j].id) {
      assert Taken(db.leaves, [], rows[j]);
      assert Taken(db.leaves, [], rows[i]);
    } else if !Covered(db.leaves, rows[i].id) {
      ScopeRowsOrdered(db.events, scope);
      PendingOrdered(db);
      assert rows[i] in rows && Before(EventKey(rows[i]), EventKey(rows[j]));
      StoredEventSound(cr, db.events, rows[i]);
      assert rows[i] in pending;
      var q :| 0 <= q < |pending| && pending[q] == rows[i];
      var k :| 0 <= k < |selected| && selected[k] == rows[j];
      assert pending[k] == rows[j];
      BeforeMeansEarlier(pending, EventKey, q, k);
      assert selected[q] == rows[i];
    }
  }

  // ----- commit -----

  lemma CommitKeepsPrefix(cr: Crypto, db: AuditDb, selected: seq<Event>, signer: Signer, id: nat, now: int)
    requires EventsGood(cr, db.events) && SelectionGood(db, selected) && selected != []
    requires PrefixTaken(db.events, db.leaves, selected)
    ensures PrefixTaken(db.events, WithBatch(cr, db, selected, signer, id, now).leaves, [])
  {
    hide ChainsValid, LatestBatch, NewBatch, ScopeRows, Taken, LeavesFor, Covered;
    var leaves := db.leaves + LeavesFor(cr, id, selected);
    forall scope, i, j | 0 <= i < j < |ScopeRows(db.events, scope)| && Taken(leaves, [], ScopeRows(db.events, scope)[j])
      ensures Taken(leaves, [], ScopeRows(db.events, scope)[i])
    {
      var rows := ScopeRows(db.events, scope);
      ScopeRowsOrdered(db.events, scope);
      assert rows[i] in rows && rows[j] in rows;
      TakenAfterCommit(cr, db, selected, id, rows[i]);
      TakenAfterCommit(cr, db, selected, id, rows[j]);
    }
  }

  lemma TakenAfterCommit(cr: Crypto, db: AuditDb, selected: seq<Event>, id: nat, e: Event)
    requires DistinctIds(db.events) && SelectionGood(db, selected) && e in db.events
    ensures Taken(db.leaves + LeavesFor(cr, id, selected), [], e) <==> Taken(db.leaves, selected, e)
  {
    CommitCovers(cr, db, selected, id, e);
  }

  // ----- every step, every run -----

  lemma StepKeepsInvariant(site: Site, s: LogState, a: Action)
    requires site.Valid() && Invariant(site, s) && Enabled(s, a)
    ensures Invariant(site, Apply(site, s, a))
    ensures Extends(s.db, Apply(site, s, a).db)
  {
    hide PrefixTaken, AuditGood, WithEvent, WithBatch, Selection, Extends;
    match a
    case Append(event) =>
      AppendKeepsAuditGood(site.cr, s.db, event, site.keys);
      AppendKeepsPrefix(site.cr, s.db, event, site.keys, SelectedOf(s));
      AppendKeepsPrefix(site.cr, s.db, event, site.keys, []);
      AppendKeepsSelection(site.cr, s.db, event, SelectedOf(s));
    case BeginCheckpoint(maxLeaves) =>
      SelectionTakesPrefix(site.cr, s.db, site.keys, maxLeaves);
      ExtendsReflexive(s.db);
    case CommitCheckpoint(batchId, now) =>
      CommitExtends(site.cr, s.db, s.selected.value, site.signer, batchId, now);
      CommitKeepsAuditGood(site.cr, s.db, s.selected.value, site.signer, batchId, now, site.keys);
      CommitStepKeepsPrefix(site, s, batchId, now);
    case AbandonCheckpoint =>
      ExtendsReflexive(s.db);
  }

  lemma AppendKeepsSelection(cr: Crypto, db: AuditDb, event: Event, selected: seq<Event>)
    requires SelectionGood(db, selected)
    ensures SelectionGood(WithEvent(cr, db, event), selected)
    ensures WithEvent(cr, db, event).leaves == db.leaves
  {
  }

  lemma ExtendsReflexive(db: AuditDb)
    ensures Extends(db, db)
  {
  }

  lemma CommitStepKeepsPrefix(site: Site, s: LogState, batchId: nat, now: int)
    requires Invariant(site, s) && s.selected.Some? && s.selected.value != []
    ensures var db' := WithBatch(site.cr, s.db, s.selected.value, site.signer, batchId, now);
            PrefixTaken(db'.events, db'.leaves, [])
  {
    hide PrefixTaken, LatestBatch, NewBatch, LeavesFor;
    CommitKeepsPrefix(site.cr, s.db, s.selected.value, site.signer, batchId, now);
  }

  lemma ExtendsTransitive(a: AuditDb, b: AuditDb, c: AuditDb)
    requires Extends(a, b) && Extends(b, c)
    ensures Extends(a, c)
  {
    hide LeavesOf;
    forall i | 0 <= i < |a.batches|
      ensures LeavesOf(c, a.batches[i].id) == LeavesOf(a, a.batches[i].id)
    {
      assert a.batches[i] == b.batches[i];
      assert LeavesOf(c, b.batches[i].id) == LeavesOf(b, b.batches[i].id);
    }
  }

  lemma {:induction false} RunKeepsInvariant(site: Site, s: LogState, run: seq<Action>)
    requires site.Valid() && Invariant(site, s) && Legal(site, s, run)
    ensures Invariant(site, After(site, s, run))
    ensures Extends(s.db, After(site, s, run).db)
    decreases |run|
  {
    hide Invariant, Extends, Apply, Enabled;
    if run == [] {
      ExtendsReflexive(s.db);
    } else {
      var next := Apply(site, s, run[0]);
      StepKeepsInvariant(site, s, run[0]);
      RunKeepsInvariant(site, next, run[1..]);
      ExtendsTransitive(s.db, next.db, After(site, s, run).db);
    }
  }

  lemma EmptyIsGood(site: Site)
    ensures Invariant(site, EMPTY)
  {
    forall scope: Scope
      ensures ScopeRows([], scope) == []
    {
    }
  }

  /** In every run, whatever the interleaving: the database verifies, event chains
      included; each scope is one linear chain in (created_at, id) order; no event has two
      leaves; and the checkpointed events of a scope are a prefix of its chain. */
  lemma EveryRunVerifies(site: Site, run: seq<Action>)
    requires site.Valid() && Legal(site, EMPTY, run)
    ensures var db := After(site, EMPTY, run).db;
            && DatabaseSound(site.cr, db, site.keys, None, true)
            && (forall scope :: ChainValid(site.cr.events, scope, ScopeRows(db.events, scope))
                             && Ordered(ScopeRows(db.events, scope), EventKey))
            && LeafEventIdsDistinct(db.leaves)
            && PrefixTaken(db.events, db.leaves, [])
  {
    EmptyIsGood(site);
    RunKeepsInvariant(site, EMPTY, run);
    GoodStateVerifies(site, After(site, EMPTY, run));
  }

  lemma GoodStateVerifies(site: Site, s: LogState)
    requires Invariant(site, s)
    ensures DatabaseSound(site.cr, s.db, site.keys, None, true)
    ensures forall scope :: ChainValid(site.cr.events, scope, ScopeRows(s.db.events, scope))
                         && Ordered(ScopeRows(s.db.events, scope), EventKey)
    ensures LeafEventIdsDistinct(s.db.leaves)
  {
    hide ChainValid, HistorySound, BatchesThrough, ScopeRows;
    BatchesThroughPrefix(site.cr, s.db, site.keys, 0);
    forall scope
      ensures ChainValid(site.cr.events, scope, ScopeRows(s.db.events, scope))
      ensures Ordered(ScopeRows(s.db.events, scope), EventKey)
    {
      ScopeRowsOrdered(s.db.events, scope);
    }
  }

  // ----- exported evidence keeps its value -----

  lemma AnchorSurvivesExtension(cr: Crypto, db: AuditDb, db': AuditDb, a: Anchor, keys: PublicKeys)
    requires HistorySound(cr, db, db.batches, keys) && HistorySound(cr, db', db'.batches, keys)
    requires Extends(db, db') && AnchorAccepted(cr, db, a, keys)
    ensures AnchorAccepted(cr, db', a, keys)
  {
    hide HistorySound, LeavesOf, AnchorSigned, AnchorFor, Where;
    var k := a.sequenceNo;
    AnchoredPosition(cr, db, a, keys);
    BatchesThroughPrefix(cr, db, keys, k);
    BatchesThroughPrefix(cr, db', keys, k);
    assert db'.batches[..k] == db.batches[..k];
    HistorySoundPrefix(cr, db', db'.batches, keys, k);
    OnlyBatchAt(cr, db', keys, k);
  }

  lemma OnlyBatchAt(cr: Crypto, db: AuditDb, keys: PublicKeys, k: nat)
    requires HistorySound(cr, db, db.batches, keys) && 1 <= k <= |db.batches|
    ensures Where(db.batches, WithSequence(k)) == [db.batches[k - 1]]
  {
    hide HistorySound, Where;
    SequenceIsPosition(cr, db, db.batches, keys);
    WhereSingle(db.batches, WithSequence(k), k - 1);
  }

  lemma AnchoredPosition(cr: Crypto, db: AuditDb, a: Anchor, keys: PublicKeys)
    requires HistorySound(cr, db, db.batches, keys) && AnchorAccepted(cr, db, a, keys)
    ensures 1 <= a.sequenceNo <= |db.batches| && a == AnchorFor(db.batches[a.sequenceNo - 1])
  {
    hide HistorySound;
    SequenceIsPosition(cr, db, db.batches, keys);
    var candidates := Where(db.batches, WithSequence(a.sequenceNo));
    WhereMembers(db.batches, WithSequence(a.sequenceNo));
    assert candidates[0] in candidates;
    var i :| 0 <= i < |db.batches| && db.batches[i] == candidates[0];
  }

  /** An exported anchor stays accepted after any number of further appends and checkpoints. */
  lemma AnchorStaysAccepted(site: Site, s: LogState, run: seq<Action>, a: Anchor)
    requires site.Valid() && Invariant(site, s) && Legal(site, s, run)
    requires AnchorAccepted(site.cr, s.db, a, site.keys)
    ensures AnchorAccepted(site.cr, After(site, s, run).db, a, site.keys)
  {
    hide AnchorAccepted, Extends, HistorySound, After, Legal;
    RunKeepsInvariant(site, s, run);
    AnchorSurvivesExtension(site.cr, s.db, After(site, s, run).db, a, site.keys);
  }

  lemma SoundThrough(cr: Crypto, db: AuditDb, keys: PublicKeys, k: nat)
    requires HistorySound(cr, db, db.batches, keys) && 1 <= k <= |db.batches|
    ensures DatabaseSound(cr, db, keys, Some(k), false)
  {
    hide HistorySound;
    SequenceIsPosition(cr, db, db.batches, keys);
    BatchesThroughPrefix(cr, db, keys, k);
    HistorySoundPrefix(cr, db, db.batches, keys, k);
  }

  /** Every stored checkpoint has an accepted anchor. */
  lemma StoredCheckpointAnchors(site: Site, s: LogState, k: nat)
    requires Invariant(site, s) && 1 <= k <= |s.db.batches|
    ensures AnchorAccepted(site.cr, s.db, AnchorFor(s.db.batches[k - 1]), site.keys)
  {
    hide HistorySound, EventsGood, LeafTableGood, PrefixTaken, LeavesSound, LeafEventsSound, SelectionGood, ValidKeyId, DatabaseSound;
    var db, keys := s.db, site.keys;
    SequenceIsPosition(site.cr, db, db.batches, keys);
    SoundThrough(site.cr, db, keys, k);
    HistorySoundAt(site.cr, db, db.batches, keys, k - 1);
    WhereSingle(db.batches, WithSequence(k), k - 1);
  }

  /** In every reachable state a proof can be handed out for every checkpointed event. */
  lemma CoveredEventHasProof(site: Site, s: LogState, eventId: nat)
    requires Invariant(site, s) && Covered(s.db.leaves, eventId)
    ensures ProofAvailable(site.cr, s.db, eventId, site.keys)
  {
    hide HistorySound, EventsGood, PrefixTaken, SelectionGood, LeavesOf, BatchSound, DatabaseSound, LeafMatches, LeafEventIdsDistinct, FindLeaf, FindEvent, FindBatch;
    var db, keys := s.db, site.keys;
    var j :| 0 <= j < |db.leaves| && db.leaves[j].eventId == eventId;
    var leaf := FindLeaf(db.leaves, eventId).value;
    var i :| 0 <= i < |db.leaves| && db.leaves[i] == leaf;
    var event := FindEvent(db.events, eventId).value;
    assert BatchKnown(db.batches, db.leaves[i].batchId);
    var batch := FindBatch(db.batches, leaf.batchId).value;
    var k :| 0 <= k < |db.batches| && db.batches[k] == batch;
    HistorySoundAt(site.cr, db, db.batches, keys, k);
    SoundThrough(site.cr, db, keys, k + 1);
    CoveredLeafMatches(site.cr, db, keys, batch, leaf, event);
  }

  lemma CoveredLeafMatches(cr: Crypto, db: AuditDb, keys: PublicKeys, b: Batch, l: Leaf, e: Event)
    requires BatchSound(cr, db, b, keys) && l in db.leaves && l.batchId == b.id
    requires FindEvent(db.events, l.eventId) == Some(e)
    ensures LeafMatches(cr, e, l)
  {
    hide HeaderSound, LeavesOf, EventRoot;
    LeafAtItsIndex(cr, db, keys, b, l);
    var leaves := LeavesOf(db, b.id);
    assert LeafEventSound(cr, db.events, leaves[l.leafIndex]);
  }
}
