/** Per-scope hash chains of audit events: how a writer links a new event, and how a
    chain is verified. The backend and the worker append in the same way. */
module EventChain {
  import opened Hashing
  import opened Rows

  const HASH_ALGORITHM := "sha256"
  const INTEGRITY_VERSION := 1

  datatype Scope = SystemScope | ChannelScope(channelId: nat) | OtherScope(text: string)

  /** One row of the events table; identifiers are UUIDs, times are microseconds. */
  datatype Event = Event(
    id: nat, channelId: Option<nat>, actorId: Option<nat>, eventType: string, createdAt: int, payload: string,
    previousHash: Option<HashText>, eventHash: Option<HashText>,
    hashAlgorithm: Option<string>, integrityVersion: Option<int>, integrityScope: Option<Scope>)

  /** Exactly the fields that the event hash covers. */
  datatype EventRecord = EventRecord(
    id: nat, channelId: Option<nat>, actorId: Option<nat>, eventType: string, createdAt: int, payload: string,
    previousHash: Option<HashText>, integrityVersion: Option<int>, integrityScope: Option<Scope>)

  function Canonical(e: Event): EventRecord {
    EventRecord(e.id, e.channelId, e.actorId, e.eventType, e.createdAt, e.payload,
                e.previousHash, e.integrityVersion, e.integrityScope)
  }

  /** SHA-256 over canonical JSON text; both are parameters. */
  datatype EventHasher = EventHasher(sha: Sha256, json: EventRecord -> Bytes) {
    function Input(e: Event): Bytes { json(Canonical(e)) }

    function Hash(e: Event): HashText { Hex(sha(Input(e))) }

    /** Canonical JSON text determines the record it was made from. */
    ghost predicate JsonInjective() {
      forall a, b :: json(a) == json(b) ==> a == b
    }
  }

  function ScopeOf(channelId: Option<nat>): Scope {
    match channelId
    case None => SystemScope
    case Some(id) => ChannelScope(id)
  }

  function EventKey(e: Event): SortKey { (e.createdAt, e.id) }

  function InScope(scope: Scope): Event -> bool {
    (e: Event) => e.integrityScope == Some(scope)
  }

  function HashedInScope(scope: Scope): Event -> bool {
    (e: Event) => e.integrityScope == Some(scope) && e.eventHash.Some?
  }

  /** The rows of a scope in (created_at, id) order. */
  function ScopeRows(events: seq<Event>, scope: Scope): seq<Event> {
    OrderBy(Where(events, InScope(scope)), EventKey)
  }

  // ----- verification -----

  datatype ChainFault = MissingHash | ScopeMismatch | UnsupportedAlgorithm | UnsupportedVersion
                      | PreviousHashMismatch | HashMismatch

  function Fault(h: EventHasher, scope: Scope, previous: Option<HashText>, e: Event): Option<ChainFault> {
    if e.eventHash.None? || e.integrityScope.None? || e.hashAlgorithm.None? || e.integrityVersion.None? then Some(MissingHash)
    else if e.integrityScope.value != scope then Some(ScopeMismatch)
    else if e.hashAlgorithm.value != HASH_ALGORITHM then Some(UnsupportedAlgorithm)
    else if e.integrityVersion.value != INTEGRITY_VERSION then Some(UnsupportedVersion)
    else if e.previousHash != previous then Some(PreviousHashMismatch)
    else if e.eventHash.value != h.Hash(e) then Some(HashMismatch)
    else None
  }

  function HashBefore(events: seq<Event>, i: nat): Option<HashText>
    requires i <= |events|
  {
    if i == 0 then None else events[i - 1].eventHash
  }

  predicate SoundAt(h: EventHasher, scope: Scope, events: seq<Event>, i: nat)
    requires i < |events|
  {
    Fault(h, scope, HashBefore(events, i), events[i]).None?
  }

  predicate ChainValid(h: EventHasher, scope: Scope, events: seq<Event>) {
    forall i :: 0 <= i < |events| ==> SoundAt(h, scope, events, i)
  }

  datatype ChainVerdict = ChainOk(checked: nat, lastHash: Option<HashText>)
                        | ChainBroken(checked: nat, eventId: nat, fault: ChainFault, lastValidHash: Option<HashText>)

  /** Walks a chain from its start; a broken verdict points at the first unsound event. */
  method VerifyEvents(h: EventHasher, scope: Scope, events: seq<Event>) returns (r: ChainVerdict)
    ensures r.ChainOk? <==> ChainValid(h, scope, events)
    ensures r.ChainOk? ==> r.checked == |events| && r.lastHash == HashBefore(events, |events|)
    ensures r.ChainBroken? ==>
              && 1 <= r.checked <= |events|
              && ChainValid(h, scope, events[..r.checked - 1])
              && Fault(h, scope, HashBefore(events, r.checked - 1), events[r.checked - 1]) == Some(r.fault)
              && r.eventId == events[r.checked - 1].id
              && r.lastValidHash == HashBefore(events, r.checked - 1)
  {
    var checked, previous: Option<HashText> := 0, None;
    while checked < |events|
      invariant 0 <= checked <= |events|
      invariant previous == HashBefore(events, checked)
      invariant forall i :: 0 <= i < checked ==> SoundAt(h, scope, events, i)
    {
      var event := events[checked];
      var fault := Fault(h, scope, previous, event);
      if fault.Some? {
        assert !SoundAt(h, scope, events, checked);
        forall i | 0 <= i < checked
          ensures SoundAt(h, scope, events[..checked], i)
        {
          assert SoundAt(h, scope, events, i);
        }
        return ChainBroken(checked + 1, event.id, fault.value, previous);
      }
      previous := event.eventHash;
      checked := checked + 1;
    }
    r := ChainOk(checked, previous);
  }

  // ----- appending -----

  /** The newest hashed event of a scope. */
  function Latest(events: seq<Event>, scope: Scope): Option<Event> {
    var rows := OrderBy(Where(events, HashedInScope(scope)), EventKey);
    if rows == [] then None else Some(rows[|rows| - 1])
  }

  /** Links an event behind the newest one of its scope, moving its timestamp one
      microsecond past that event's when the clock did not. */
  function AttachIntegrity(h: EventHasher, stored: seq<Event>, event: Event, scope: Scope): Event {
    var latest := Latest(stored, scope);
    var linked := event.(
      createdAt := if latest.Some? && event.createdAt <= latest.value.createdAt then latest.value.createdAt + 1 else event.createdAt,
      previousHash := if latest.Some? then latest.value.eventHash else None,
      hashAlgorithm := Some(HASH_ALGORITHM),
      integrityVersion := Some(INTEGRITY_VERSION),
      integrityScope := Some(scope));
    linked.(eventHash := Some(h.Hash(linked)))
  }

  lemma LatestOfChain(h: EventHasher, stored: seq<Event>, scope: Scope)
    requires ChainValid(h, scope, ScopeRows(stored, scope))
    ensures Latest(stored, scope) ==
            var rows := ScopeRows(stored, scope); if rows == [] then None else Some(rows[|rows| - 1])
  {
    var rows := ScopeRows(stored, scope);
    forall i | 0 <= i < |stored|
      ensures InScope(scope)(stored[i]) == HashedInScope(scope)(stored[i])
    {
      if stored[i].integrityScope == Some(scope) {
        WhereMembers(stored, InScope(scope));
        OrderByMembers(Where(stored, InScope(scope)), EventKey);
        assert stored[i] in Where(stored, InScope(scope));
        assert stored[i] in rows;
        var j :| 0 <= j < |rows| && rows[j] == stored[i];
        assert SoundAt(h, scope, rows, j);
      }
    }
    WhereAgrees(stored, InScope(scope), HashedInScope(scope));
  }

  lemma OtherScopeUntouched(stored: seq<Event>, event: Event, other: Scope)
    requires event.integrityScope != Some(other)
    ensures ScopeRows(stored + [event], other) == ScopeRows(stored, other)
  {
    WhereAppend(stored, event, InScope(other));
    assert Where(stored, InScope(other)) + [] == Where(stored, InScope(other));
  }

  lemma LaterRowComesLast(stored: seq<Event>, event: Event, scope: Scope)
    requires event.integrityScope == Some(scope)
    requires var rows := ScopeRows(stored, scope); rows == [] || rows[|rows| - 1].createdAt < event.createdAt
    ensures ScopeRows(stored + [event], scope) == ScopeRows(stored, scope) + [event]
  {
    WhereAppend(stored, event, InScope(scope));
    var kept := Where(stored, InScope(scope));
    assert (kept + [event])[..|kept|] == kept;
  }

  lemma ChainExtends(h: EventHasher, scope: Scope, rows: seq<Event>, event: Event)
    requires ChainValid(h, scope, rows)
    requires Fault(h, scope, HashBefore(rows, |rows|), event).None?
    ensures ChainValid(h, scope, rows + [event])
  {
    forall i | 0 <= i < |rows + [event]|
      ensures SoundAt(h, scope, rows + [event], i)
    {
      if i < |rows| {
        assert SoundAt(h, scope, rows, i);
      }
    }
  }

  lemma LinkedEventFollows(h: EventHasher, stored: seq<Event>, event: Event, scope: Scope)
    requires ChainValid(h, scope, ScopeRows(stored, scope))
    ensures var linked, rows := AttachIntegrity(h, stored, event, scope), ScopeRows(stored, scope);
            && linked.integrityScope == Some(scope)
            && Fault(h, scope, HashBefore(rows, |rows|), linked).None?
            && (rows == [] || rows[|rows| - 1].createdAt < linked.createdAt)
  {
    LatestOfChain(h, stored, scope);
  }

  /** The append step: the linked event becomes the last row of its scope and the chain
      stays valid; every other scope is as before. */
  lemma AppendExtendsChain(h: EventHasher, stored: seq<Event>, event: Event, scope: Scope, linked: Event)
    requires ChainValid(h, scope, ScopeRows(stored, scope))
    requires linked == AttachIntegrity(h, stored, event, scope)
    ensures ScopeRows(stored + [linked], scope) == ScopeRows(stored, scope) + [linked]
    ensures ChainValid(h, scope, ScopeRows(stored, scope) + [linked])
    ensures forall other: Scope :: other != scope ==> ScopeRows(stored + [linked], other) == ScopeRows(stored, other)
  {
    LinkedEventFollows(h, stored, event, scope);
    LaterRowComesLast(stored, linked, scope);
    ChainExtends(h, scope, ScopeRows(stored, scope), linked);
    forall other: Scope | other != scope
      ensures ScopeRows(stored + [linked], other) == ScopeRows(stored, other)
    {
      OtherScopeUntouched(stored, linked, other);
    }
  }
}
