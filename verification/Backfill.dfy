/** Giving old events their place in the hash chains: what the maintenance script keeps,
    assigns and refuses, and what it leaves behind. */
module Backfill {
  import opened Hashing
  import opened Rows
  import opened EventChain

  function OfScope(scope: Scope): Event -> bool {
    (e: Event) => ScopeOf(e.channelId) == scope
  }

  /** The events that belong to a scope by their channel, in order. */
  function Group(rows: seq<Event>, scope: Scope): seq<Event> {
    Where(rows, OfScope(scope))
  }

  function Assigned(h: EventHasher, scope: Scope, previous: Option<HashText>, e: Event): Event {
    var linked := e.(previousHash := previous, hashAlgorithm := Some(HASH_ALGORITHM),
                     integrityVersion := Some(INTEGRITY_VERSION), integrityScope := Some(scope));
    linked.(eventHash := Some(h.Hash(linked)))
  }

  predicate ContinuesChain(h: EventHasher, scope: Scope, previous: Option<HashText>, e: Event) {
    && e.integrityScope == Some(scope) && e.hashAlgorithm == Some(HASH_ALGORITHM)
    && e.integrityVersion == Some(INTEGRITY_VERSION)
    && e.previousHash == previous && e.eventHash == Some(h.Hash(e))
  }

  datatype Decision = Keep | Conflict | Assign(event: Event)

  function Decide(h: EventHasher, scope: Scope, previous: Option<HashText>, e: Event, force: bool): Decision {
    if e.eventHash.Some? && !force then (if ContinuesChain(h, scope, previous, e) then Keep else Conflict)
    else Assign(Assigned(h, scope, previous, e))
  }

  /** How far a scope has got: the hash to link to, and whether a conflict stopped it. */
  datatype Progress = Progress(previous: Option<HashText>, stopped: bool)

  function Advance(p: Progress, d: Decision, e: Event): Progress {
    match d
    case Keep => p.(previous := e.eventHash)
    case Conflict => p.(stopped := true)
    case Assign(event) => p.(previous := event.eventHash)
  }

  function ProgressAfter(h: EventHasher, rows: seq<Event>, scope: Scope, force: bool): Progress {
    if rows == [] then Progress(None, false) else
      var p, e := ProgressAfter(h, rows[..|rows| - 1], scope, force), rows[|rows| - 1];
      if ScopeOf(e.channelId) != scope || p.stopped then p
      else Advance(p, Decide(h, scope, p.previous, e, force), e)
  }

  /** An event after its scope was processed up to it. */
  function Rewritten(h: EventHasher, before: seq<Event>, e: Event, force: bool): Event {
    var scope := ScopeOf(e.channelId);
    var p := ProgressAfter(h, before, scope, force);
    if p.stopped then e else
      match Decide(h, scope, p.previous, e, force)
      case Assign(event) => event
      case _ => e
  }

  function NewRow(h: EventHasher, before: seq<Event>, e: Event, touched: set<Scope>, force: bool): Event {
    if ScopeOf(e.channelId) in touched then Rewritten(h, before, e, force) else e
  }

  /** All rows after the scopes in `touched` have been processed. */
  function NewRows(h: EventHasher, rows: seq<Event>, touched: set<Scope>, force: bool): (r: seq<Event>)
    ensures |r| == |rows|
  {
    if rows == [] then [] else
      var front, e := rows[..|rows| - 1], rows[|rows| - 1];
      NewRows(h, front, touched, force) + [NewRow(h, front, e, touched, force)]
  }

  lemma {:induction false} NewRowsAt(h: EventHasher, rows: seq<Event>, touched: set<Scope>, force: bool, i: nat)
    requires i < |rows|
    ensures NewRows(h, rows, touched, force)[i] == NewRow(h, rows[..i], rows[i], touched, force)
    ensures NewRows(h, rows[..i + 1], touched, force) == NewRows(h, rows[..i], touched, force) + [NewRow(h, rows[..i], rows[i], touched, force)]
  {
    hide Rewritten;
    assert rows[..i + 1][..i] == rows[..i];
    if i < |rows| - 1 {
      var front := rows[..|rows| - 1];
      assert front[..i] == rows[..i] && front[..i + 1] == rows[..i + 1];
      NewRowsAt(h, front, touched, force, i);
    } else {
      assert rows[..i + 1] == rows;
    }
  }

  predicate ConflictFree(h: EventHasher, rows: seq<Event>, scope: Scope, force: bool) {
    !ProgressAfter(h, rows, scope, force).stopped
  }

  // ----- what does not change -----

  lemma {:induction false} RowsKeepIdentity(h: EventHasher, rows: seq<Event>, touched: set<Scope>, force: bool, i: nat)
    requires i < |rows|
    ensures var e, e' := rows[i], NewRows(h, rows, touched, force)[i];
            && e'.id == e.id && e'.createdAt == e.createdAt && e'.channelId == e.channelId
            && e'.actorId == e.actorId && e'.eventType == e.eventType && e'.payload == e.payload
            && (e.eventHash.Some? && !force ==> e' == e)
            && (ScopeOf(e.channelId) !in touched ==> e' == e)
  {
    if i < |rows| - 1 {
      RowsKeepIdentity(h, rows[..|rows| - 1], touched, force, i);
    }
  }

  // ----- chains are repaired -----

  lemma DecisionContinues(h: EventHasher, scope: Scope, previous: Option<HashText>, e: Event, force: bool)
    requires !Decide(h, scope, previous, e, force).Conflict?
    ensures var e' := match Decide(h, scope, previous, e, force) case Assign(event) => event case _ => e;
            && Fault(h, scope, previous, e').None?
            && Advance(Progress(previous, false), Decide(h, scope, previous, e, force), e).previous == e'.eventHash
            && e'.channelId == e.channelId
  {
  }

  /** The group is a valid chain so far, ending in the hash to link to. */
  predicate Repaired(h: EventHasher, scope: Scope, group: seq<Event>, previous: Option<HashText>) {
    && ChainValid(h, scope, group)
    && HashBefore(group, |group|) == previous
    && forall i :: 0 <= i < |group| ==> group[i].integrityScope == Some(scope)
  }

  lemma RepairedNext(h: EventHasher, scope: Scope, group: seq<Event>, previous: Option<HashText>, e: Event)
    requires Repaired(h, scope, group, previous) && Fault(h, scope, previous, e).None?
    ensures Repaired(h, scope, group + [e], e.eventHash)
  {
    hide ChainValid, Fault;
    ChainExtends(h, scope, group, e);
    SoundHasScope(h, scope, previous, e);
  }

  /** A conflict-free scope ends up as one valid chain. */
  lemma {:induction false} BackfillRepairs(h: EventHasher, rows: seq<Event>, touched: set<Scope>, force: bool, scope: Scope)
    requires scope in touched && ConflictFree(h, rows, scope, force)
    ensures Repaired(h, scope, Group(NewRows(h, rows, touched, force), scope), ProgressAfter(h, rows, scope, force).previous)
  {
    if rows == [] {
      EmptyChain(h, scope);
    } else {
      hide Decide, Advance, Repaired, Fault, Where;
      var front, e := rows[..|rows| - 1], rows[|rows| - 1];
      BackfillRepairs(h, front, touched, force, scope);
      var done := NewRows(h, front, touched, force);
      var e' := NewRows(h, rows, touched, force)[|rows| - 1];
      WhereAppend(done, e', OfScope(scope));
      RowsKeepIdentity(h, rows, touched, force, |rows| - 1);
      if ScopeOf(e.channelId) == scope {
        var p := ProgressAfter(h, front, scope, force);
        NotStopped(p, Decide(h, scope, p.previous, e, force), e);
        DecisionContinues(h, scope, p.previous, e, force);
        RepairedNext(h, scope, Group(done, scope), p.previous, e');
      } else {
        assert Group(done, scope) + [] == Group(done, scope);
      }
    }
  }

  lemma EmptyChain(h: EventHasher, scope: Scope)
    ensures ChainValid(h, scope, [])
  {
  }

  lemma NotStopped(p: Progress, d: Decision, e: Event)
    requires !p.stopped && !Advance(p, d, e).stopped
    ensures !d.Conflict?
  {
  }

  lemma SoundHasScope(h: EventHasher, scope: Scope, previous: Option<HashText>, e: Event)
    requires Fault(h, scope, previous, e).None?
    ensures e.integrityScope == Some(scope)
  {
  }

  // ----- a second run -----

  lemma AssignedContinues(h: EventHasher, scope: Scope, previous: Option<HashText>, e: Event)
    ensures var e' := Assigned(h, scope, previous, e);
            ContinuesChain(h, scope, previous, e') && e'.eventHash.Some? && Assigned(h, scope, previous, e') == e'
  {
  }

  /** Deciding again about what was left behind keeps it, or meets the same conflict. */
  lemma DecideAgain(h: EventHasher, scope: Scope, p: Progress, e: Event, force: bool)
    requires !p.stopped
    ensures var d := Decide(h, scope, p.previous, e, force);
            var e' := match d case Assign(event) => event case _ => e;
            var again := Decide(h, scope, p.previous, e', false);
            && !again.Assign? && Advance(p, again, e') == Advance(p, d, e)
  {
    AssignedContinues(h, scope, p.previous, e);
  }

  lemma {:induction false} SameProgressAgain(h: EventHasher, rows: seq<Event>, touched: set<Scope>, force: bool, scope: Scope)
    requires scope in touched
    ensures ProgressAfter(h, NewRows(h, rows, touched, force), scope, false) == ProgressAfter(h, rows, scope, force)
  {
    hide Decide, Advance;
    if rows != [] {
      var front, e := rows[..|rows| - 1], rows[|rows| - 1];
      SameProgressAgain(h, front, touched, force, scope);
      var again := NewRows(h, rows, touched, force);
      assert again[..|rows| - 1] == NewRows(h, front, touched, force);
      RowsKeepIdentity(h, rows, touched, force, |rows| - 1);
      var p := ProgressAfter(h, front, scope, force);
      if ScopeOf(e.channelId) == scope && !p.stopped {
        DecideAgain(h, scope, p, e, force);
      }
    }
  }

  /** A second run without force changes nothing, whatever the first one met. */
  lemma {:induction false} SecondRunChangesNothing(h: EventHasher, rows: seq<Event>, touched: set<Scope>, force: bool)
    ensures var done := NewRows(h, rows, touched, force);
            NewRows(h, done, touched, false) == done
  {
    hide Decide, Advance;
    if rows != [] {
      var front, e := rows[..|rows| - 1], rows[|rows| - 1];
      SecondRunChangesNothing(h, front, touched, force);
      var done := NewRows(h, rows, touched, force);
      assert done[..|rows| - 1] == NewRows(h, front, touched, force);
      RowsKeepIdentity(h, rows, touched, force, |rows| - 1);
      var scope := ScopeOf(e.channelId);
      if scope in touched {
        SameProgressAgain(h, front, touched, force, scope);
        var p := ProgressAfter(h, front, scope, force);
        if !p.stopped {
          DecideAgain(h, scope, p, e, force);
        }
      }
    }
  }

  // ----- the whole table -----

  lemma {:induction false} WhereOrdered(rows: seq<Event>, condition: Event -> bool)
    requires Ordered(rows, EventKey)
    ensures Ordered(Where(rows, condition), EventKey)
  {
    if rows != [] {
      var front := rows[..|rows| - 1];
      WhereOrdered(front, condition);
      WhereMembers(front, condition);
      forall i | 0 <= i < |Where(front, condition)|
        ensures Before(EventKey(Where(front, condition)[i]), EventKey(rows[|rows| - 1]))
      {
        assert Where(front, condition)[i] in front;
        var j :| 0 <= j < |front| && front[j] == Where(front, condition)[i];
        assert rows[j] == front[j];
      }
    }
  }

  lemma NewRowsOrdered(h: EventHasher, rows: seq<Event>, touched: set<Scope>, force: bool)
    requires Ordered(rows, EventKey)
    ensures Ordered(NewRows(h, rows, touched, force), EventKey)
  {
    hide NewRows;
    var r := NewRows(h, rows, touched, force);
    forall i, j | 0 <= i < j < |r|
      ensures Before(EventKey(r[i]), EventKey(r[j]))
    {
      RowsKeepIdentity(h, rows, touched, force, i);
      RowsKeepIdentity(h, rows, touched, force, j);
      assert Before(EventKey(rows[i]), EventKey(rows[j]));
    }
  }

  // ----- a run limited to one scope -----

  /** The event belongs to another channel but carries this scope in its own column. */
  predicate Foreign(e: Event, scope: Scope) {
    e.integrityScope == Some(scope) && ScopeOf(e.channelId) != scope
  }

  function IsForeign(scope: Scope): Event -> bool {
    (e: Event) => Foreign(e, scope)
  }

  function ForeignRows(rows: seq<Event>, scope: Scope): seq<Event> {
    Where(rows, IsForeign(scope))
  }

  /** Foreign rows stand only after the scope's own rows. */
  predicate ForeignLast(rows: seq<Event>, scope: Scope) {
    forall i, j :: 0 <= i < j < |rows| && Foreign(rows[i], scope) ==> ScopeOf(rows[j].channelId) != scope
  }

  predicate LinksAt(h: EventHasher, scope: Scope, previous: Option<HashText>, rows: seq<Event>, i: nat)
    requires i < |rows|
  {
    Fault(h, scope, if i == 0 then previous else rows[i - 1].eventHash, rows[i]).None?
  }

  /** The rows form a chain that links to `previous`. */
  predicate Continues(h: EventHasher, scope: Scope, previous: Option<HashText>, rows: seq<Event>) {
    forall i :: 0 <= i < |rows| ==> LinksAt(h, scope, previous, rows, i)
  }

  /** What can be asked of the table before the run: foreign rows of the scope only follow its
      own rows, and continue the chain from the hash a dry run ends with. */
  predicate ForeignRowsFit(h: EventHasher, rows: seq<Event>, scope: Scope, force: bool) {
    ForeignLast(rows, scope) && Continues(h, scope, ProgressAfter(h, rows, scope, force).previous, ForeignRows(rows, scope))
  }

  /** The rows the verifier reads back for the scope, and what it hashes. */
  function ReadBack(h: EventHasher, rows: seq<Event>, scope: Scope, force: bool): seq<Event> {
    Where(NewRows(h, rows, {scope}, force), InScope(scope))
  }

  function Inputs(h: EventHasher, rows: seq<Event>): set<Bytes> {
    set e | e in rows :: h.Input(e)
  }

  lemma ReadBackIsScopeRows(h: EventHasher, rows: seq<Event>, scope: Scope, force: bool)
    requires Ordered(rows, EventKey)
    ensures ScopeRows(NewRows(h, rows, {scope}, force), scope) == ReadBack(h, rows, scope, force)
  {
    hide NewRows;
    NewRowsOrdered(h, rows, {scope}, force);
    WhereOrdered(NewRows(h, rows, {scope}, force), InScope(scope));
    OrderByOrderedRows(ReadBack(h, rows, scope, force), EventKey);
  }

  /** How one more row extends what is read back, the group and the foreign rows. */
  lemma OneMoreRow(h: EventHasher, front: seq<Event>, e: Event, scope: Scope, force: bool)
    ensures var rows, e' := front + [e], NewRow(h, front, e, {scope}, force);
            && ReadBack(h, rows, scope, force) == ReadBack(h, front, scope, force) + (if e'.integrityScope == Some(scope) then [e'] else [])
            && Group(NewRows(h, rows, {scope}, force), scope) == Group(NewRows(h, front, {scope}, force), scope) + (if ScopeOf(e.channelId) == scope then [e'] else [])
            && ForeignRows(rows, scope) == ForeignRows(front, scope) + (if Foreign(e, scope) then [e] else [])
            && e'.channelId == e.channelId && e'.id == e.id && e'.createdAt == e.createdAt && (ScopeOf(e.channelId) != scope ==> e' == e)
  {
    hide Rewritten, Where, ProgressAfter;
    var rows, done := front + [e], NewRows(h, front, {scope}, force);
    var e' := NewRow(h, front, e, {scope}, force);
    assert rows[..|front|] == front && rows[|front|] == e;
    NewRowsAt(h, rows, {scope}, force, |front|);
    assert rows[..|front| + 1] == rows;
    RowsKeepIdentity(h, rows, {scope}, force, |front|);
    WhereAppend(done, e', InScope(scope));
    WhereAppend(done, e', OfScope(scope));
    WhereAppend(front, e, IsForeign(scope));
  }

  lemma FrontOf(rows: seq<Event>)
    requires rows != []
    ensures rows == rows[..|rows| - 1] + [rows[|rows| - 1]]
  {
  }

  lemma FrontConflictFree(h: EventHasher, rows: seq<Event>, scope: Scope, force: bool)
    requires rows != [] && ConflictFree(h, rows, scope, force)
    ensures ConflictFree(h, rows[..|rows| - 1], scope, force)
  {
  }

  /** An event of the scope, processed without conflict, links to the progress so far. */
  lemma OwnRowLinks(h: EventHasher, rows: seq<Event>, scope: Scope, force: bool)
    requires rows != [] && ConflictFree(h, rows, scope, force) && ScopeOf(rows[|rows| - 1].channelId) == scope
    ensures var front, e := rows[..|rows| - 1], rows[|rows| - 1];
            var e' := NewRow(h, front, e, {scope}, force);
            && Fault(h, scope, ProgressAfter(h, front, scope, force).previous, e').None?
            && ProgressAfter(h, rows, scope, force).previous == e'.eventHash && e'.integrityScope == Some(scope)
  {
    hide Decide, Advance, Fault;
    var front, e := rows[..|rows| - 1], rows[|rows| - 1];
    var p := ProgressAfter(h, front, scope, force);
    FrontConflictFree(h, rows, scope, force);
    NotStopped(p, Decide(h, scope, p.previous, e, force), e);
    DecisionContinues(h, scope, p.previous, e, force);
    SoundHasScope(h, scope, p.previous, NewRow(h, front, e, {scope}, force));
  }

  /** With the foreign rows last, the verifier reads the repaired group and then them. */
  lemma {:induction false} ReadBackSplits(h: EventHasher, rows: seq<Event>, scope: Scope, force: bool)
    requires ConflictFree(h, rows, scope, force) && ForeignLast(rows, scope)
    ensures ReadBack(h, rows, scope, force) == Group(NewRows(h, rows, {scope}, force), scope) + ForeignRows(rows, scope)
  {
    if rows != [] {
      hide ReadBack, Group, ForeignRows, ProgressAfter, NewRow, ForeignLast;
      var front, e := rows[..|rows| - 1], rows[|rows| - 1];
      FrontOf(rows);
      FrontConflictFree(h, rows, scope, force);
      FrontForeignLast(rows, scope);
      ReadBackSplits(h, front, scope, force);
      OneMoreRow(h, front, e, scope, force);
      if ScopeOf(e.channelId) == scope {
        OwnRowLinks(h, rows, scope, force);
        NoForeignBefore(rows, scope);
      }
    }
  }

  lemma FrontForeignLast(rows: seq<Event>, scope: Scope)
    requires rows != [] && ForeignLast(rows, scope)
    ensures ForeignLast(rows[..|rows| - 1], scope)
  {
  }

  lemma NoForeignBefore(rows: seq<Event>, scope: Scope)
    requires rows != [] && ForeignLast(rows, scope) && ScopeOf(rows[|rows| - 1].channelId) == scope
    ensures ForeignRows(rows[..|rows| - 1], scope) == []
  {
    WhereNone(rows[..|rows| - 1], IsForeign(scope));
  }

  lemma ChainContinues(h: EventHasher, scope: Scope, group: seq<Event>, rest: seq<Event>)
    requires ChainValid(h, scope, group)
    ensures ChainValid(h, scope, group + rest) <==> Continues(h, scope, HashBefore(group, |group|), rest)
  {
    hide Fault;
    if Continues(h, scope, HashBefore(group, |group|), rest) {
      forall i | 0 <= i < |group + rest|
        ensures SoundAt(h, scope, group + rest, i)
      {
        if i < |group| {
          assert SoundAt(h, scope, group, i);
        } else {
          var k := i - |group|;
          assert LinksAt(h, scope, HashBefore(group, |group|), rest, k);
          assert HashBefore(group + rest, i) == if k == 0 then HashBefore(group, |group|) else rest[k - 1].eventHash;
        }
      }
    }
    if ChainValid(h, scope, group + rest) {
      forall i | 0 <= i < |rest|
        ensures LinksAt(h, scope, HashBefore(group, |group|), rest, i)
      {
        assert SoundAt(h, scope, group + rest, |group| + i);
      }
    }
  }

  /** Sufficient: fitting foreign rows leave the scope verifiable. */
  lemma FittingForeignRowsVerify(h: EventHasher, rows: seq<Event>, scope: Scope, force: bool)
    requires ConflictFree(h, rows, scope, force) && ForeignLast(rows, scope)
    ensures ChainValid(h, scope, ReadBack(h, rows, scope, force)) <==> ForeignRowsFit(h, rows, scope, force)
  {
    hide ReadBack, Group, ForeignRows, ProgressAfter, ChainValid, Continues;
    BackfillRepairs(h, rows, {scope}, force, scope);
    ReadBackSplits(h, rows, scope, force);
    ChainContinues(h, scope, Group(NewRows(h, rows, {scope}, force), scope), ForeignRows(rows, scope));
  }

  lemma ChainPrefix(h: EventHasher, scope: Scope, rows: seq<Event>, e: Event)
    requires ChainValid(h, scope, rows + [e])
    ensures ChainValid(h, scope, rows) && Fault(h, scope, HashBefore(rows, |rows|), e).None?
  {
    hide Fault;
    forall i | 0 <= i < |rows|
      ensures SoundAt(h, scope, rows, i)
    {
      assert SoundAt(h, scope, rows + [e], i);
    }
    assert SoundAt(h, scope, rows + [e], |rows|);
  }

  /** An own and a foreign event with one hash exhibit a collision. */
  lemma SharedHash(h: EventHasher, scope: Scope, g: Event, f: Event, rows: seq<Event>)
    requires h.JsonInjective() && g in rows && f in rows && ScopeOf(g.channelId) == scope != ScopeOf(f.channelId)
    requires g.eventHash == Some(h.Hash(g)) && f.eventHash == Some(h.Hash(f)) && g.eventHash == f.eventHash
    ensures CollisionBetween(h.sha, Inputs(h, rows), Inputs(h, rows))
  {
    assert Canonical(g) != Canonical(f);
    assert h.Input(g) in Inputs(h, rows) && h.Input(f) in Inputs(h, rows);
  }

  lemma SoundHasHash(h: EventHasher, scope: Scope, rows: seq<Event>, i: nat)
    requires ChainValid(h, scope, rows) && i < |rows|
    ensures rows[i].eventHash == Some(h.Hash(rows[i]))
  {
    assert SoundAt(h, scope, rows, i);
  }

  /** An own row behind a foreign one can only verify by a collision. */
  lemma OwnAfterForeign(h: EventHasher, rows: seq<Event>, scope: Scope, force: bool)
    requires h.JsonInjective() && rows != [] && ConflictFree(h, rows, scope, force)
    requires var front := rows[..|rows| - 1];
             ForeignLast(front, scope) && ForeignRows(front, scope) != [] && ScopeOf(rows[|rows| - 1].channelId) == scope
    requires ChainValid(h, scope, ReadBack(h, rows, scope, force))
    ensures CollisionBetween(h.sha, Inputs(h, ReadBack(h, rows, scope, force)), Inputs(h, ReadBack(h, rows, scope, force)))
  {
    var front, e := rows[..|rows| - 1], rows[|rows| - 1];
    var group, foreign, read := Group(NewRows(h, front, {scope}, force), scope), ForeignRows(front, scope), ReadBack(h, front, scope, force);
    var all := ReadBack(h, rows, scope, force);
    ForeignMembers(front, scope, |foreign| - 1);
    GroupMembers(NewRows(h, front, {scope}, force), scope);
    hide ReadBack, Group, ForeignRows, ProgressAfter, NewRow, ForeignLast, ChainValid, Inputs, CollisionBetween;
    FrontOf(rows);
    FrontConflictFree(h, rows, scope, force);
    ReadBackSplits(h, front, scope, force);
    OneMoreRow(h, front, e, scope, force);
    OwnRowLinks(h, rows, scope, force);
    BackfillRepairs(h, front, {scope}, force, scope);
    var e' := NewRow(h, front, e, {scope}, force);
    ChainPrefix(h, scope, read, e');
    var f := foreign[|foreign| - 1];
    assert read[|read| - 1] == f;
    SoundHasHash(h, scope, read, |read| - 1);
    assert HashBefore(group, |group|) == f.eventHash;
    assert group != [];
    var g := group[|group| - 1];
    assert read[|group| - 1] == g;
    SoundHasHash(h, scope, read, |group| - 1);
    assert all[|group| - 1] == g && all[|read| - 1] == f;
    SharedHash(h, scope, g, f, all);
  }

  lemma ForeignMembers(rows: seq<Event>, scope: Scope, i: nat)
    requires i < |ForeignRows(rows, scope)|
    ensures Foreign(ForeignRows(rows, scope)[i], scope)
  {
    WhereMembers(rows, IsForeign(scope));
    assert ForeignRows(rows, scope)[i] in ForeignRows(rows, scope);
  }

  lemma GroupMembers(rows: seq<Event>, scope: Scope)
    ensures forall i :: 0 <= i < |Group(rows, scope)| ==> ScopeOf(Group(rows, scope)[i].channelId) == scope
  {
    WhereMembers(rows, OfScope(scope));
    forall i | 0 <= i < |Group(rows, scope)|
      ensures ScopeOf(Group(rows, scope)[i].channelId) == scope
    {
      assert Group(rows, scope)[i] in Group(rows, scope);
    }
  }

  lemma ForeignLastExtends(rows: seq<Event>, scope: Scope)
    requires rows != [] && ForeignLast(rows[..|rows| - 1], scope)
    requires ScopeOf(rows[|rows| - 1].channelId) != scope || ForeignRows(rows[..|rows| - 1], scope) == []
    ensures ForeignLast(rows, scope)
  {
    var front := rows[..|rows| - 1];
    WhereMembers(front, IsForeign(scope));
    forall i, j | 0 <= i < j < |rows| && Foreign(rows[i], scope)
      ensures ScopeOf(rows[j].channelId) != scope
    {
      assert front[i] == rows[i] && front[i] in front;
      assert front[i] in ForeignRows(front, scope);
      if j < |front| { assert front[j] == rows[j]; }
    }
  }

  lemma MoreInputs(h: EventHasher, front: seq<Event>, rest: seq<Event>)
    ensures Inputs(h, front) <= Inputs(h, front + rest)
  {
  }

  /** Necessary: what verifies has its foreign rows last, or exhibits a collision. */
  lemma {:induction false} VerifiedHasForeignLast(h: EventHasher, rows: seq<Event>, scope: Scope, force: bool)
    requires h.JsonInjective() && ConflictFree(h, rows, scope, force) && ChainValid(h, scope, ReadBack(h, rows, scope, force))
    ensures var read := ReadBack(h, rows, scope, force);
            ForeignLast(rows, scope) || CollisionBetween(h.sha, Inputs(h, read), Inputs(h, read))
  {
    if rows != [] {
      hide ReadBack, Group, ForeignRows, ProgressAfter, NewRow, ForeignLast, ChainValid, Inputs, CollisionBetween;
      var front, e := rows[..|rows| - 1], rows[|rows| - 1];
      var read, all := ReadBack(h, front, scope, force), ReadBack(h, rows, scope, force);
      var e' := NewRow(h, front, e, {scope}, force);
      FrontOf(rows);
      FrontConflictFree(h, rows, scope, force);
      OneMoreRow(h, front, e, scope, force);
      if e'.integrityScope == Some(scope) {
        ChainPrefix(h, scope, read, e');
        MoreInputs(h, read, [e']);
      } else {
        assert read + [] == read;
      }
      VerifiedHasForeignLast(h, front, scope, force);
      CollisionGrows(h.sha, Inputs(h, read), Inputs(h, read), Inputs(h, all), Inputs(h, all));
      if ForeignLast(front, scope) {
        if ScopeOf(e.channelId) == scope && ForeignRows(front, scope) != [] {
          OwnAfterForeign(h, rows, scope, force);
        } else {
          ForeignLastExtends(rows, scope);
        }
      }
    }
  }

  /** After a conflict-free run limited to one scope the verifier accepts the scope exactly
      when the table's foreign rows fit, which can be asked before the run; the only other
      way to acceptance is a SHA-256 collision among the rows read back. */
  lemma FilteredRunVerifiesExactly(h: EventHasher, rows: seq<Event>, scope: Scope, force: bool)
    requires h.JsonInjective() && Ordered(rows, EventKey) && ConflictFree(h, rows, scope, force)
    ensures var read := ScopeRows(NewRows(h, rows, {scope}, force), scope);
            && (ForeignRowsFit(h, rows, scope, force) ==> ChainValid(h, scope, read))
            && (ChainValid(h, scope, read) ==>
                  ForeignRowsFit(h, rows, scope, force) || CollisionBetween(h.sha, Inputs(h, read), Inputs(h, read)))
  {
    hide ReadBack, ChainValid, ForeignLast, Continues, CollisionBetween, ProgressAfter;
    ReadBackIsScopeRows(h, rows, scope, force);
    if ForeignLast(rows, scope) {
      FittingForeignRowsVerify(h, rows, scope, force);
    } else if ChainValid(h, scope, ReadBack(h, rows, scope, force)) {
      VerifiedHasForeignLast(h, rows, scope, force);
    }
  }

  const OWN := Event(1, None, None, "a", 1, "", None, None, None, None, None)
  const STRAY := Event(2, Some(7), None, "b", 2, "", None, None, None, None, Some(SystemScope))

  /** For instance: an unhashed system event, and an unhashed event of channel 7 that carries
      the system scope. A run limited to the system scope meets no conflict, and what the
      verifier then reads is broken. */
  lemma FilteredRunCanFail(h: EventHasher)
    ensures ConflictFree(h, [OWN, STRAY], SystemScope, false)
    ensures !ChainValid(h, SystemScope, ScopeRows(NewRows(h, [OWN, STRAY], {SystemScope}, false), SystemScope))
  {
    hide ReadBack, ChainValid, Continues, ForeignRows, NewRows, Fault;
    TwoRows(h);
    ReadBackIsScopeRows(h, [OWN, STRAY], SystemScope, false);
    FittingForeignRowsVerify(h, [OWN, STRAY], SystemScope, false);
    StrayDoesNotFit(h);
  }

  lemma TwoRows(h: EventHasher)
    ensures Ordered([OWN, STRAY], EventKey) && ForeignLast([OWN, STRAY], SystemScope)
    ensures ConflictFree(h, [OWN, STRAY], SystemScope, false)
  {
    var rows := [OWN, STRAY];
    assert rows[..1] == [OWN] && [OWN][..0] == [];
    assert ProgressAfter(h, [], SystemScope, false) == Progress(None, false);
    assert !ProgressAfter(h, [OWN], SystemScope, false).stopped;
  }

  lemma StrayDoesNotFit(h: EventHasher)
    ensures !ForeignRowsFit(h, [OWN, STRAY], SystemScope, false)
  {
    hide ProgressAfter;
    var rows, foreign := [OWN, STRAY], ForeignRows([OWN, STRAY], SystemScope);
    WhereSingle(rows, IsForeign(SystemScope), 1);
    assert foreign == [STRAY];
    assert Fault(h, SystemScope, ProgressAfter(h, rows, SystemScope, false).previous, STRAY) == Some(MissingHash);
    assert !LinksAt(h, SystemScope, ProgressAfter(h, rows, SystemScope, false).previous, foreign, 0);
  }

  // ----- an unfiltered run -----

  lemma OwnScopeOnly(h: EventHasher, rows: seq<Event>, touched: set<Scope>, force: bool, i: nat)
    requires i < |rows| && ScopeOf(rows[i].channelId) in touched && ConflictFree(h, rows, ScopeOf(rows[i].channelId), force)
    ensures NewRows(h, rows, touched, force)[i].integrityScope == Some(ScopeOf(rows[i].channelId))
  {
    hide NewRows, ProgressAfter, ChainValid;
    var done, own := NewRows(h, rows, touched, force), ScopeOf(rows[i].channelId);
    RowsKeepIdentity(h, rows, touched, force, i);
    BackfillRepairs(h, rows, touched, force, own);
    WhereMembers(done, OfScope(own));
    assert done[i] in Group(done, own);
  }

  /** An unfiltered, conflict-free run leaves every scope of the table verifiable. */
  lemma UnfilteredRunRepairsAll(h: EventHasher, rows: seq<Event>, touched: set<Scope>, force: bool, scope: Scope)
    requires Ordered(rows, EventKey) && scope in touched
    requires forall i :: 0 <= i < |rows| ==> ScopeOf(rows[i].channelId) in touched
    requires forall s :: s in touched ==> ConflictFree(h, rows, s, force)
    ensures ChainValid(h, scope, ScopeRows(NewRows(h, rows, touched, force), scope))
  {
    hide NewRows, ProgressAfter, ChainValid, Where;
    var done := NewRows(h, rows, touched, force);
    BackfillRepairs(h, rows, touched, force, scope);
    NewRowsOrdered(h, rows, touched, force);
    WhereOrdered(done, InScope(scope));
    OrderByOrderedRows(Where(done, InScope(scope)), EventKey);
    forall i | 0 <= i < |done|
      ensures InScope(scope)(done[i]) == OfScope(scope)(done[i])
    {
      RowsKeepIdentity(h, rows, touched, force, i);
      OwnScopeOnly(h, rows, touched, force, i);
    }
    WhereAgrees(done, InScope(scope), OfScope(scope));
  }

  // ----- the script -----

  datatype Stats = Stats(scopes: nat, seen: nat, updated: nat, kept: nat, conflicts: nat)

  function Counted(t: Stats, d: Decision): Stats {
    var t1 := t.(seen := t.seen + 1);
    match d
    case Keep => t1.(kept := t.kept + 1)
    case Conflict => t1.(conflicts := t.conflicts + 1)
    case Assign(_) => t1.(updated := t.updated + 1)
  }

  function ScopeStats(h: EventHasher, rows: seq<Event>, scope: Scope, force: bool, t: Stats): Stats {
    if rows == [] then t.(scopes := t.scopes + 1) else
      var front, e := rows[..|rows| - 1], rows[|rows| - 1];
      var p, t1 := ProgressAfter(h, front, scope, force), ScopeStats(h, front, scope, force, t);
      if ScopeOf(e.channelId) != scope || p.stopped then t1 else Counted(t1, Decide(h, scope, p.previous, e, force))
  }

  function AllStats(h: EventHasher, rows: seq<Event>, scopes: seq<Scope>, force: bool): Stats {
    if scopes == [] then Stats(0, 0, 0, 0, 0)
    else ScopeStats(h, rows, scopes[|scopes| - 1], force, AllStats(h, rows, scopes[..|scopes| - 1], force))
  }

  function ElementsOf(scopes: seq<Scope>): set<Scope> { set s | s in scopes }

  /** Rows up to `i` with one more scope processed, the others as before. */
  function Mixed(h: EventHasher, rows: seq<Event>, touched: set<Scope>, scope: Scope, force: bool, i: nat): (r: seq<Event>)
    requires i <= |rows|
    ensures |r| == |rows|
  {
    NewRows(h, rows[..i], touched + {scope}, force) + NewRows(h, rows, touched, force)[i..]
  }

  lemma MixedStep(h: EventHasher, rows: seq<Event>, touched: set<Scope>, scope: Scope, force: bool, i: nat)
    requires i < |rows| && scope !in touched
    ensures var e, mixed := rows[i], Mixed(h, rows, touched, scope, force, i);
            Mixed(h, rows, touched, scope, force, i + 1) ==
            if ScopeOf(e.channelId) == scope then mixed[i := Rewritten(h, rows[..i], e, force)] else mixed
  {
    hide NewRows, Rewritten;
    NewRowsAt(h, rows, touched, force, i);
    NewRowsAt(h, rows, touched + {scope}, force, i);
    SplicedAt(NewRows(h, rows[..i], touched + {scope}, force), NewRows(h, rows, touched, force), i,
              NewRow(h, rows[..i], rows[i], touched + {scope}, force));
  }

  lemma SplicedAt(front: seq<Event>, rest: seq<Event>, i: nat, e: Event)
    requires |front| == i < |rest|
    ensures front + [e] + rest[i + 1..] == (front + rest[i..])[i := e]
  {
  }

  lemma MixedEnds(h: EventHasher, rows: seq<Event>, touched: set<Scope>, scope: Scope, force: bool)
    ensures Mixed(h, rows, touched, scope, force, 0) == NewRows(h, rows, touched, force)
    ensures Mixed(h, rows, touched, scope, force, |rows|) == NewRows(h, rows, touched + {scope}, force)
  {
    assert rows[..|rows|] == rows;
    var r := NewRows(h, rows, touched, force);
    assert r[|rows|..] == [] && [] + r[0..] == r;
    assert NewRows(h, rows, touched + {scope}, force) + [] == NewRows(h, rows, touched + {scope}, force);
  }

  /** One scope: walk its events in order, up to the first conflict. */
  method BackfillScope(h: EventHasher, rows: seq<Event>, ghost original: seq<Event>, ghost touched: set<Scope>, scope: Scope, force: bool, dryRun: bool, t: Stats)
    returns (rows': seq<Event>, t': Stats)
    requires |rows| == |original| && scope !in touched
    requires rows == if dryRun then original else NewRows(h, original, touched, force)
    ensures rows' == if dryRun then original else NewRows(h, original, touched + {scope}, force)
    ensures t' == ScopeStats(h, original, scope, force, t)
  {
    hide Decide, Advance, Counted, NewRows, Mixed;
    rows', t' := rows, t.(scopes := t.scopes + 1);
    var p, i := Progress(None, false), 0;
    MixedEnds(h, original, touched, scope, force);
    while i < |rows|
      invariant 0 <= i <= |rows| == |rows'|
      invariant p == ProgressAfter(h, original[..i], scope, force)
      invariant t' == ScopeStats(h, original[..i], scope, force, t)
      invariant rows' == if dryRun then original else Mixed(h, original, touched, scope, force, i)
    {
      assert original[..i + 1][..i] == original[..i];
      MixedStep(h, original, touched, scope, force, i);
      RowsKeepIdentity(h, original, touched, force, i);
      var e := rows[i];
      if ScopeOf(e.channelId) == scope {
        if p.stopped {
          assert dryRun || rows'[i := e] == rows' by { MixedRow(h, original, touched, scope, force, i); }
        } else {
          var d := Decide(h, scope, p.previous, e, force);
          t' := Counted(t', d);
          if d.Assign? {
            if !dryRun { rows' := rows'[i := d.event]; }
          } else {
            assert dryRun || rows'[i := e] == rows' by { MixedRow(h, original, touched, scope, force, i); }
          }
          p := Advance(p, d, e);
        }
      }
      i := i + 1;
    }
    assert original[..i] == original;
  }

  lemma MixedRow(h: EventHasher, rows: seq<Event>, touched: set<Scope>, scope: Scope, force: bool, i: nat)
    requires i < |rows|
    ensures Mixed(h, rows, touched, scope, force, i)[i] == NewRows(h, rows, touched, force)[i]
  {
  }

  /** The whole script. A dry run reports the same statistics and changes nothing. */
  method BackfillAll(h: EventHasher, rows: seq<Event>, scopes: seq<Scope>, force: bool, dryRun: bool)
    returns (rows': seq<Event>, t: Stats)
    requires forall i, j :: 0 <= i < j < |scopes| ==> scopes[i] != scopes[j]
    ensures rows' == if dryRun then rows else NewRows(h, rows, ElementsOf(scopes), force)
    ensures t == AllStats(h, rows, scopes, force)
  {
    hide NewRows, ScopeStats;
    rows', t := rows, Stats(0, 0, 0, 0, 0);
    NothingTouched(h, rows, force);
    var i := 0;
    assert ElementsOf(scopes[..0]) == {};
    while i < |scopes|
      invariant 0 <= i <= |scopes| && t == AllStats(h, rows, scopes[..i], force)
      invariant rows' == if dryRun then rows else NewRows(h, rows, ElementsOf(scopes[..i]), force)
    {
      assert scopes[..i + 1][..i] == scopes[..i];
      assert scopes[..i + 1] == scopes[..i] + [scopes[i]];
      assert ElementsOf(scopes[..i + 1]) == ElementsOf(scopes[..i]) + {scopes[i]};
      assert scopes[i] !in ElementsOf(scopes[..i]);
      rows', t := BackfillScope(h, rows', rows, ElementsOf(scopes[..i]), scopes[i], force, dryRun, t);
      i := i + 1;
    }
    assert scopes[..i] == scopes;
  }

  lemma {:induction false} NothingTouched(h: EventHasher, rows: seq<Event>, force: bool)
    ensures NewRows(h, rows, {}, force) == rows
  {
    if rows != [] {
      NothingTouched(h, rows[..|rows| - 1], force);
    }
  }

  // ----- the statistics mean what they say -----

  /** A scope reports a conflict exactly when one stopped it. */
  lemma {:induction false} ConflictsReported(h: EventHasher, rows: seq<Event>, scope: Scope, force: bool, t: Stats)
    ensures ScopeStats(h, rows, scope, force, t).conflicts == t.conflicts + if ConflictFree(h, rows, scope, force) then 0 else 1
    ensures force ==> ConflictFree(h, rows, scope, force)
  {
    if rows != [] {
      ConflictsReported(h, rows[..|rows| - 1], scope, force, t);
    }
  }

  /** The second run reports no update. */
  lemma {:induction false} SecondRunUpdatesNone(h: EventHasher, rows: seq<Event>, touched: set<Scope>, force: bool, scope: Scope, t: Stats)
    requires scope in touched
    ensures ScopeStats(h, NewRows(h, rows, touched, force), scope, false, t).updated == t.updated
  {
    hide Decide, Advance;
    if rows != [] {
      var front, e := rows[..|rows| - 1], rows[|rows| - 1];
      SecondRunUpdatesNone(h, front, touched, force, scope, t);
      var done := NewRows(h, rows, touched, force);
      assert done[..|rows| - 1] == NewRows(h, front, touched, force);
      RowsKeepIdentity(h, rows, touched, force, |rows| - 1);
      SameProgressAgain(h, front, touched, force, scope);
      var p := ProgressAfter(h, front, scope, force);
      if ScopeOf(e.channelId) == scope && !p.stopped {
        DecideAgain(h, scope, p, e, force);
      }
    }
  }
}
