/** Realtime delivery: membership transactions version each channel, events carry the
    version they were committed under, and sockets authorise against a cached version or a
    fresh read. Reads and what is done with their result are separate steps, and the broker
    may hold back, reorder and repeat events. */
module Delivery {
  import opened Hashing

  datatype Channel = Channel(generation: nat, deleted: bool)

  /** The committed tables: channels and the approved (channel, user) memberships. */
  datatype Db = Db(channels: map<nat, Channel>, approved: set<(nat, nat)>)

  predicate Entitled(db: Db, channel: nat, user: nat) {
    channel in db.channels && !db.channels[channel].deleted && (channel, user) in db.approved
  }

  datatype Transaction =
    | Create(channel: nat, owner: nat)
    | Approve(channel: nat, user: nat)
    | Revoke(channel: nat, user: nat)
    | Delete(channel: nat)
    | Restore(channel: nat)

  predicate Live(db: Db, channel: nat) { channel in db.channels && !db.channels[channel].deleted }

  predicate TransactionEnabled(db: Db, t: Transaction) {
    match t
    case Create(channel, _) => channel !in db.channels
    case Approve(channel, _) => Live(db, channel)
    case Revoke(channel, _) => Live(db, channel)
    case Delete(channel) => Live(db, channel)
    case Restore(channel) => channel in db.channels && db.channels[channel].deleted
  }

  function Bumped(db: Db, channel: nat, deleted: bool): map<nat, Channel>
    requires channel in db.channels
  {
    db.channels[channel := Channel(db.channels[channel].generation + 1, deleted)]
  }

  function Transact(db: Db, t: Transaction): Db
    requires TransactionEnabled(db, t)
  {
    match t
    case Create(channel, owner) => Db(db.channels[channel := Channel(1, false)], db.approved + {(channel, owner)})
    case Approve(channel, user) => Db(Bumped(db, channel, false), db.approved + {(channel, user)})
    case Revoke(channel, user) => Db(Bumped(db, channel, false), db.approved - {(channel, user)})
    case Delete(channel) => db.(channels := Bumped(db, channel, true))
    case Restore(channel) => db.(channels := Bumped(db, channel, false))
  }

  /** `since` is the position in the history of the tables the stamp was read from; it is
      not part of the event that travels. */
  datatype Event = Event(channel: nat, stamp: Option<nat>, since: nat, serial: nat)

  datatype Socket = Socket(user: nat, subs: set<nat>, generations: map<nat, nat>, checked: map<nat, int>)

  /** A decision to read, or a database read whose result has not been used yet. */
  datatype Pending =
    | Ask(socket: nat, user: nat, event: Event)
    | Check(socket: nat, user: nat, event: Event, result: Option<nat>)
    | Grant(socket: nat, user: nat, wanted: set<nat>, states: map<nat, nat>)

  datatype Delivered = Delivered(user: nat, event: Event)

  /** `past` are the committed tables so far, the last being current. */
  datatype World = World(past: seq<Db>, events: set<Event>, sockets: map<nat, Socket>, pending: set<Pending>, delivered: set<Delivered>)

  const EMPTY := World([Db(map[], {})], {}, map[], {}, {})

  function Now(w: World): Db
    requires w.past != []
  {
    w.past[|w.past| - 1]
  }

  function MemberStates(db: Db, user: nat): map<nat, nat> {
    map c | c in db.channels && Entitled(db, c, user) :: db.channels[c].generation
  }

  function ReadGeneration(db: Db, channel: nat, user: nat): Option<nat> {
    if Entitled(db, channel, user) then Some(db.channels[channel].generation) else None
  }

  // ----- what a socket does between two awaits -----

  function Drop(s: Socket, channels: set<nat>): Socket {
    s.(subs := s.subs - channels, generations := s.generations - channels, checked := s.checked - channels)
  }

  function Install(s: Socket, channel: nat, generation: nat, time: int): Socket {
    s.(generations := s.generations[channel := generation], checked := s.checked[channel := time])
  }

  function Subscribe(s: Socket, wanted: set<nat>, states: map<nat, nat>, time: int): Socket {
    var granted := wanted * states.Keys;
    s.(subs := granted, generations := map c | c in granted :: states[c], checked := map c | c in granted :: time)
  }

  /** The cached answer suffices: it is as new as the event and recent enough. */
  predicate CacheAnswers(s: Socket, e: Event, time: int, ttl: int) {
    && e.stamp.Some? && e.channel in s.generations && e.stamp.value <= s.generations[e.channel]
    && time - (if e.channel in s.checked then s.checked[e.channel] else 0) <= ttl
  }

  /** A read accepts the event. */
  predicate ReadAccepts(e: Event, result: Option<nat>) {
    result.Some? && (e.stamp.None? || e.stamp.value <= result.value)
  }

  function AfterRead(s: Socket, e: Event, result: Option<nat>, time: int): Socket {
    match result
    case None => Drop(s, {e.channel})
    case Some(g) => if ReadAccepts(e, result) then Install(s, e.channel, g, time) else s
  }

  // ----- steps -----

  datatype Step =
    | Commit(transaction: Transaction, serial: nat)
    | Post(channel: nat, serial: nat)
    | PostUnstamped(channel: nat, serial: nat)
    | Connect(socket: nat, user: nat)
    | Disconnect(socket: nat)
    | BeginSubscribe(socket: nat, wanted: set<nat>)
    | FinishSubscribe(pending: Pending, time: int)
    | Unsubscribe(socket: nat, channels: set<nat>)
    | Targeted(socket: nat, channel: nat, approved: bool)
    | Forward(socket: nat, event: Event, time: int, ttl: int)
    | ReadForCheck(pending: Pending)
    | FinishCheck(pending: Pending, time: int)

  predicate Enabled(w: World, a: Step)
    requires w.past != []
  {
    match a
    case Commit(t, _) => TransactionEnabled(Now(w), t)
    case Post(channel, _) => channel in Now(w).channels
    case PostUnstamped(channel, _) => channel in Now(w).channels
    case Connect(socket, _) => socket !in w.sockets
    case Disconnect(socket) => socket in w.sockets
    case BeginSubscribe(socket, _) => socket in w.sockets
    case FinishSubscribe(p, _) => p in w.pending && p.Grant?
    case Unsubscribe(socket, _) => socket in w.sockets
    case Targeted(socket, _, _) => socket in w.sockets
    case Forward(socket, event, _, _) => socket in w.sockets && event in w.events
    case ReadForCheck(p) => p in w.pending && p.Ask?
    case FinishCheck(p, _) => p in w.pending && p.Check?
  }

  /** The channel event a transaction publishes: membership changes are stamped after
      their own bump, deletion and restoration before it. */
  function EventsOf(w: World, t: Transaction, serial: nat): set<Event>
    requires w.past != [] && TransactionEnabled(Now(w), t)
  {
    match t
    case Create(_, _) => {}
    case Approve(c, _) => {Event(c, Some(Transact(Now(w), t).channels[c].generation), |w.past|, serial)}
    case Revoke(c, _) => {Event(c, Some(Transact(Now(w), t).channels[c].generation), |w.past|, serial)}
    case Delete(c) => {Event(c, Some(Now(w).channels[c].generation), |w.past| - 1, serial)}
    case Restore(c) => {Event(c, Some(Now(w).channels[c].generation), |w.past| - 1, serial)}
  }

  /** The socket a finished read belongs to, if it is still the same user's. */
  function WithSocket(sockets: map<nat, Socket>, id: nat, user: nat, f: Socket -> Socket): map<nat, Socket> {
    if id in sockets && sockets[id].user == user then sockets[id := f(sockets[id])] else sockets
  }

  function Apply(w: World, a: Step): (w': World)
    requires w.past != [] && Enabled(w, a)
    ensures w'.past != []
  {
    match a
    case Commit(t, serial) => w.(past := w.past + [Transact(Now(w), t)], events := w.events + EventsOf(w, t, serial))
    case Post(c, serial) => w.(events := w.events + {Event(c, Some(Now(w).channels[c].generation), |w.past| - 1, serial)})
    case PostUnstamped(c, serial) => w.(events := w.events + {Event(c, None, |w.past| - 1, serial)})
    case Connect(socket, user) => w.(sockets := w.sockets[socket := Socket(user, {}, map[], map[])])
    case Disconnect(socket) => w.(sockets := w.sockets - {socket})
    case BeginSubscribe(socket, wanted) =>
      var user := w.sockets[socket].user;
      w.(pending := w.pending + {Grant(socket, user, wanted, MemberStates(Now(w), user))})
    case FinishSubscribe(p, time) =>
      w.(pending := w.pending - {p},
         sockets := WithSocket(w.sockets, p.socket, p.user, s => Subscribe(s, p.wanted, p.states, time)))
    case Unsubscribe(socket, channels) => w.(sockets := w.sockets[socket := Drop(w.sockets[socket], channels)])
    case Targeted(socket, channel, approved) =>
      if approved then w else w.(sockets := w.sockets[socket := Drop(w.sockets[socket], {channel})])
    case Forward(socket, event, time, ttl) =>
      var s := w.sockets[socket];
      if event.channel !in s.subs then w
      else if CacheAnswers(s, event, time, ttl) then w.(delivered := w.delivered + {Delivered(s.user, event)})
      else w.(pending := w.pending + {Ask(socket, s.user, event)})
    case ReadForCheck(p) =>
      w.(pending := w.pending - {p} + {Check(p.socket, p.user, p.event, ReadGeneration(Now(w), p.event.channel, p.user))})
    case FinishCheck(p, time) =>
      w.(pending := w.pending - {p},
         sockets := WithSocket(w.sockets, p.socket, p.user, s => AfterRead(s, p.event, p.result, time)),
         delivered := if ReadAccepts(p.event, p.result) then w.delivered + {Delivered(p.user, p.event)} else w.delivered)
  }

  // ----- the invariant -----

  /** Some committed state at position `from` or later had the user entitled under generation `g`. */
  predicate WasEntitled(past: seq<Db>, from: nat, channel: nat, user: nat, g: nat) {
    exists i :: from <= i < |past| && Entitled(past[i], channel, user) && past[i].channels[channel].generation == g
  }

  ghost predicate SameAccess(a: Db, b: Db, channel: nat) {
    forall u :: Entitled(a, channel, u) <==> Entitled(b, channel, u)
  }

  /** Generations only grow, and a generation fixes who is entitled. */
  ghost predicate HistoryOk(past: seq<Db>) {
    forall i, j, c :: 0 <= i <= j < |past| && c in past[i].channels ==>
      && c in past[j].channels
      && past[i].channels[c].generation <= past[j].channels[c].generation
      && (past[i].channels[c].generation == past[j].channels[c].generation ==> SameAccess(past[i], past[j], c))
  }

  predicate EventOk(past: seq<Db>, e: Event) {
    && e.since < |past| && e.channel in past[e.since].channels
    && (e.stamp.Some? ==> e.stamp.value == past[e.since].channels[e.channel].generation)
  }

  predicate SocketOk(past: seq<Db>, s: Socket) {
    forall c :: c in s.generations ==> WasEntitled(past, 0, c, s.user, s.generations[c])
  }

  predicate PendingOk(past: seq<Db>, events: set<Event>, p: Pending) {
    match p
    case Ask(_, _, e) => e in events
    case Check(_, user, e, result) => e in events && (result.Some? ==> WasEntitled(past, e.since, e.channel, user, result.value))
    case Grant(_, user, _, states) => forall c :: c in states ==> WasEntitled(past, 0, c, user, states[c])
  }

  /** The delivery was backed by an entitlement not older than the event. */
  predicate Justified(past: seq<Db>, d: Delivered) {
    exists i :: d.event.since <= i < |past| && Entitled(past[i], d.event.channel, d.user)
  }

  ghost predicate Invariant(w: World) {
    && w.past != []
    && HistoryOk(w.past)
    && (forall e :: e in w.events ==> EventOk(w.past, e))
    && (forall id :: id in w.sockets ==> SocketOk(w.past, w.sockets[id]))
    && (forall p :: p in w.pending ==> PendingOk(w.past, w.events, p))
    && (forall d :: d in w.delivered ==> d.event in w.events && Justified(w.past, d))
  }

  // ----- transactions -----

  lemma TransactionVersions(db: Db, t: Transaction, c: nat)
    requires TransactionEnabled(db, t) && c in db.channels
    ensures var db' := Transact(db, t);
            && c in db'.channels && db.channels[c].generation <= db'.channels[c].generation
            && (db.channels[c].generation == db'.channels[c].generation ==> SameAccess(db, db', c))
  {
  }

  lemma HistoryGrows(past: seq<Db>, t: Transaction)
    requires past != [] && HistoryOk(past) && TransactionEnabled(past[|past| - 1], t)
    ensures HistoryOk(past + [Transact(past[|past| - 1], t)])
  {
    hide Transact, TransactionEnabled;
    var n, last := |past|, past[|past| - 1];
    var past' := past + [Transact(last, t)];
    forall i, j, c | 0 <= i <= j < |past'| && c in past'[i].channels
      ensures c in past'[j].channels && past'[i].channels[c].generation <= past'[j].channels[c].generation
      ensures past'[i].channels[c].generation == past'[j].channels[c].generation ==> SameAccess(past'[i], past'[j], c)
    {
      if i < n && j == n {
        assert past[i] == past'[i] && c in past[n - 1].channels;
        TransactionVersions(last, t, c);
      } else if i < n {
        assert past[i] == past'[i] && past[j] == past'[j];
      }
    }
  }

  lemma EntitlementsGrow(past: seq<Db>, db: Db, from: nat, c: nat, user: nat, g: nat)
    requires WasEntitled(past, from, c, user, g)
    ensures WasEntitled(past + [db], from, c, user, g)
  {
    var i :| from <= i < |past| && Entitled(past[i], c, user) && past[i].channels[c].generation == g;
    assert (past + [db])[i] == past[i];
  }

  lemma PendingGrows(past: seq<Db>, db: Db, events: set<Event>, more: set<Event>, p: Pending)
    requires PendingOk(past, events, p)
    ensures PendingOk(past + [db], events + more, p)
  {
    hide WasEntitled;
    match p
    case Ask(_, _, _) =>
    case Check(_, user, e, result) =>
      if result.Some? { EntitlementsGrow(past, db, e.since, e.channel, user, result.value); }
    case Grant(_, user, _, states) =>
      forall c | c in states
        ensures WasEntitled(past + [db], 0, c, user, states[c])
      {
        EntitlementsGrow(past, db, 0, c, user, states[c]);
      }
  }

  lemma SocketGrows(past: seq<Db>, db: Db, s: Socket)
    requires SocketOk(past, s)
    ensures SocketOk(past + [db], s)
  {
    hide WasEntitled;
    forall c | c in s.generations
      ensures WasEntitled(past + [db], 0, c, s.user, s.generations[c])
    {
      EntitlementsGrow(past, db, 0, c, s.user, s.generations[c]);
    }
  }

  lemma JustificationGrows(past: seq<Db>, db: Db, d: Delivered)
    requires Justified(past, d)
    ensures Justified(past + [db], d)
  {
    var i :| d.event.since <= i < |past| && Entitled(past[i], d.event.channel, d.user);
    assert (past + [db])[i] == past[i];
  }

  lemma NewEventsOk(w: World, t: Transaction, serial: nat, e: Event)
    requires w.past != [] && TransactionEnabled(Now(w), t) && e in EventsOf(w, t, serial)
    ensures EventOk(w.past + [Transact(Now(w), t)], e)
  {
  }

  lemma CommitKeepsInvariant(w: World, t: Transaction, serial: nat)
    requires Invariant(w) && TransactionEnabled(Now(w), t)
    ensures Invariant(Apply(w, Commit(t, serial)))
  {
    hide HistoryOk, SocketOk, PendingOk, Justified, Transact, EventsOf;
    var w' := Apply(w, Commit(t, serial));
    var db := Transact(Now(w), t);
    HistoryGrows(w.past, t);
    forall e | e in w'.events
      ensures EventOk(w'.past, e)
    {
      if e in EventsOf(w, t, serial) { NewEventsOk(w, t, serial, e); }
    }
    forall id | id in w'.sockets
      ensures SocketOk(w'.past, w'.sockets[id])
    {
      SocketGrows(w.past, db, w.sockets[id]);
    }
    forall p | p in w'.pending
      ensures PendingOk(w'.past, w'.events, p)
    {
      PendingGrows(w.past, db, w.events, EventsOf(w, t, serial), p);
    }
    forall d | d in w'.delivered
      ensures Justified(w'.past, d)
    {
      JustificationGrows(w.past, db, d);
    }
  }

  // ----- sockets -----

  /** A cached generation at least the stamp means access when the event was stamped, or later. */
  lemma CachedAnswerJustified(past: seq<Db>, s: Socket, e: Event)
    requires HistoryOk(past) && EventOk(past, e) && SocketOk(past, s)
    requires e.stamp.Some? && e.channel in s.generations && e.stamp.value <= s.generations[e.channel]
    ensures Justified(past, Delivered(s.user, e))
  {
    var c := e.channel;
    assert WasEntitled(past, 0, c, s.user, s.generations[c]);
    var k :| 0 <= k < |past| && Entitled(past[k], c, s.user) && past[k].channels[c].generation == s.generations[c];
    if k < e.since {
      assert SameAccess(past[k], past[e.since], c);
      assert Entitled(past[e.since], c, s.user);
    }
  }

  lemma CurrentRead(past: seq<Db>, from: nat, c: nat, user: nat)
    requires from < |past| && Entitled(past[|past| - 1], c, user)
    ensures WasEntitled(past, from, c, user, past[|past| - 1].channels[c].generation)
  {
  }

  lemma EarlierStart(past: seq<Db>, from: nat, c: nat, user: nat, g: nat)
    requires WasEntitled(past, from, c, user, g)
    ensures WasEntitled(past, 0, c, user, g)
  {
  }

  lemma ForwardKeepsInvariant(w: World, a: Step)
    requires Invariant(w) && a.Forward? && Enabled(w, a)
    ensures Invariant(Apply(w, a))
  {
    hide HistoryOk, SocketOk, WasEntitled, Justified;
    var s, e := w.sockets[a.socket], a.event;
    if CacheAnswers(s, e, a.time, a.ttl) {
      CachedAnswerJustified(w.past, s, e);
    }
  }

  lemma ReadKeepsInvariant(w: World, p: Pending)
    requires Invariant(w) && p in w.pending && p.Ask?
    ensures Invariant(Apply(w, ReadForCheck(p)))
  {
    hide HistoryOk, SocketOk, WasEntitled, Justified;
    var e := p.event;
    if Entitled(Now(w), e.channel, p.user) {
      CurrentRead(w.past, e.since, e.channel, p.user);
    }
  }

  lemma AcceptedReadJustified(past: seq<Db>, events: set<Event>, p: Pending)
    requires p.Check? && PendingOk(past, events, p) && ReadAccepts(p.event, p.result)
    ensures Justified(past, Delivered(p.user, p.event))
  {
    var e, g := p.event, p.result.value;
    assert WasEntitled(past, e.since, e.channel, p.user, g);
  }

  lemma AfterReadOk(past: seq<Db>, s: Socket, e: Event, result: Option<nat>, time: int)
    requires SocketOk(past, s) && (result.Some? ==> WasEntitled(past, 0, e.channel, s.user, result.value))
    ensures SocketOk(past, AfterRead(s, e, result, time)) && AfterRead(s, e, result, time).user == s.user
  {
    hide WasEntitled;
  }

  lemma FinishCheckKeepsInvariant(w: World, p: Pending, time: int)
    requires Invariant(w) && p in w.pending && p.Check?
    ensures Invariant(Apply(w, FinishCheck(p, time)))
  {
    hide HistoryOk, SocketOk, WasEntitled, Justified, AfterRead;
    var e := p.event;
    if p.result.Some? {
      EarlierStart(w.past, e.since, e.channel, p.user, p.result.value);
    }
    if ReadAccepts(e, p.result) {
      AcceptedReadJustified(w.past, w.events, p);
    }
    if p.socket in w.sockets && w.sockets[p.socket].user == p.user {
      AfterReadOk(w.past, w.sockets[p.socket], e, p.result, time);
    }
  }

  lemma SubscribeOk(past: seq<Db>, s: Socket, wanted: set<nat>, states: map<nat, nat>, time: int)
    requires forall c :: c in states ==> WasEntitled(past, 0, c, s.user, states[c])
    ensures SocketOk(past, Subscribe(s, wanted, states, time))
  {
    hide WasEntitled;
  }

  lemma FinishSubscribeKeepsInvariant(w: World, p: Pending, time: int)
    requires Invariant(w) && p in w.pending && p.Grant?
    ensures Invariant(Apply(w, FinishSubscribe(p, time)))
  {
    hide HistoryOk, SocketOk, WasEntitled, Justified, Subscribe;
    if p.socket in w.sockets && w.sockets[p.socket].user == p.user {
      SubscribeOk(w.past, w.sockets[p.socket], p.wanted, p.states, time);
    }
  }

  lemma BeginSubscribeKeepsInvariant(w: World, socket: nat, wanted: set<nat>)
    requires Invariant(w) && socket in w.sockets
    ensures Invariant(Apply(w, BeginSubscribe(socket, wanted)))
  {
    hide HistoryOk, SocketOk, WasEntitled, Justified;
    var user := w.sockets[socket].user;
    var states := MemberStates(Now(w), user);
    forall c | c in states
      ensures WasEntitled(w.past, 0, c, user, states[c])
    {
      CurrentRead(w.past, 0, c, user);
    }
  }

  lemma PostKeepsInvariant(w: World, a: Step)
    requires Invariant(w) && (a.Post? || a.PostUnstamped?) && Enabled(w, a)
    ensures Invariant(Apply(w, a))
  {
    hide HistoryOk, SocketOk, WasEntitled, Justified;
  }

  lemma SocketStepKeepsInvariant(w: World, a: Step)
    requires Invariant(w) && (a.Connect? || a.Disconnect? || a.Unsubscribe? || a.Targeted?) && Enabled(w, a)
    ensures Invariant(Apply(w, a))
  {
    hide HistoryOk, WasEntitled, Justified, PendingOk;
  }

  lemma StepKeepsInvariant(w: World, a: Step)
    requires Invariant(w) && Enabled(w, a)
    ensures Invariant(Apply(w, a))
  {
    match a
    case Commit(t, serial) => CommitKeepsInvariant(w, t, serial);
    case Post(_, _) => PostKeepsInvariant(w, a);
    case PostUnstamped(_, _) => PostKeepsInvariant(w, a);
    case Connect(_, _) => SocketStepKeepsInvariant(w, a);
    case Disconnect(_) => SocketStepKeepsInvariant(w, a);
    case BeginSubscribe(socket, wanted) => BeginSubscribeKeepsInvariant(w, socket, wanted);
    case FinishSubscribe(p, time) => FinishSubscribeKeepsInvariant(w, p, time);
    case Unsubscribe(_, _) => SocketStepKeepsInvariant(w, a);
    case Targeted(_, _, _) => SocketStepKeepsInvariant(w, a);
    case Forward(_, _, _, _) => ForwardKeepsInvariant(w, a);
    case ReadForCheck(p) => ReadKeepsInvariant(w, p);
    case FinishCheck(p, time) => FinishCheckKeepsInvariant(w, p, time);
  }

  // ----- whole runs -----

  predicate Legal(w: World, run: seq<Step>)
    requires w.past != []
    decreases |run|
  {
    run == [] || (Enabled(w, run[0]) && Legal(Apply(w, run[0]), run[1..]))
  }

  function After(w: World, run: seq<Step>): (w': World)
    requires w.past != [] && Legal(w, run)
    ensures w'.past != []
    decreases |run|
  {
    if run == [] then w else After(Apply(w, run[0]), run[1..])
  }

  lemma {:induction false} RunKeepsInvariant(w: World, run: seq<Step>)
    requires Invariant(w) && Legal(w, run)
    ensures Invariant(After(w, run))
    decreases |run|
  {
    if run != [] {
      hide HistoryOk, SocketOk, PendingOk, Justified, EventOk, Enabled;
      StepKeepsInvariant(w, run[0]);
      RunKeepsInvariant(Apply(w, run[0]), run[1..]);
    }
  }

  /** In every run an event stamped `g` reaches a socket only if its user was approved in
      the live channel at some generation >= g, and at a committed state no older than the
      one the event was committed under. */
  lemma EveryDeliveryWasEntitled(run: seq<Step>, d: Delivered)
    requires Legal(EMPTY, run) && d in After(EMPTY, run).delivered
    ensures var past := After(EMPTY, run).past;
            exists i :: d.event.since <= i < |past| && Entitled(past[i], d.event.channel, d.user)
                        && (d.event.stamp.Some? ==> d.event.stamp.value <= past[i].channels[d.event.channel].generation)
  {
    hide Legal, After, SocketOk, PendingOk;
    RunKeepsInvariant(EMPTY, run);
    var past, c := After(EMPTY, run).past, d.event.channel;
    assert Justified(past, d) && EventOk(past, d.event);
    var i :| d.event.since <= i < |past| && Entitled(past[i], c, d.user);
    assert past[d.event.since].channels[c].generation <= past[i].channels[c].generation;
  }

  /** Nothing committed after a removal or a deletion reaches the user while access is not
      given back, however stale the cache and however late the broker. */
  lemma NothingAfterRemoval(run: seq<Step>, removed: nat, user: nat, event: Event)
    requires Legal(EMPTY, run)
    requires var w := After(EMPTY, run);
             && removed <= event.since
             && forall i :: removed <= i < |w.past| ==> !Entitled(w.past[i], event.channel, user)
    ensures Delivered(user, event) !in After(EMPTY, run).delivered
  {
    hide Legal, After;
    var w, d := After(EMPTY, run), Delivered(user, event);
    if d in w.delivered {
      EveryDeliveryWasEntitled(run, d);
      assert false;
    }
  }

  /** The same by stamp: an event stamped with the removal's generation or a later one. */
  lemma NothingStampedAfterRemoval(run: seq<Step>, removed: nat, user: nat, event: Event)
    requires Legal(EMPTY, run)
    requires var w, c := After(EMPTY, run), event.channel;
             && removed < |w.past| && c in w.past[removed].channels
             && event.stamp.Some? && w.past[removed].channels[c].generation <= event.stamp.value
             && forall i :: removed <= i < |w.past| ==> !Entitled(w.past[i], c, user)
    ensures Delivered(user, event) !in After(EMPTY, run).delivered
  {
    hide Legal, After, SocketOk, PendingOk, Entitled;
    RunKeepsInvariant(EMPTY, run);
    if Delivered(user, event) in After(EMPTY, run).delivered {
      EveryDeliveryWasEntitled(run, Delivered(user, event));
      assert false;
    }
  }

  // ----- entitled users do receive -----

  predicate Uses(a: Step, p: Pending) {
    (a.FinishSubscribe? || a.ReadForCheck? || a.FinishCheck?) && a.pending == p
  }

  predicate Unused(run: seq<Step>, p: Pending) {
    forall i :: 0 <= i < |run| ==> !Uses(run[i], p)
  }

  lemma PendingStays(w: World, a: Step, p: Pending)
    requires w.past != [] && Enabled(w, a) && p in w.pending && !Uses(a, p)
    ensures p in Apply(w, a).pending
  {
  }

  /** A decision or a read stays available until it is used, whatever else happens. */
  lemma {:induction false} PendingSurvives(w: World, run: seq<Step>, p: Pending)
    requires w.past != [] && Legal(w, run) && p in w.pending && Unused(run, p)
    ensures p in After(w, run).pending
    decreases |run|
  {
    if run != [] {
      hide Enabled, Apply, Uses;
      PendingStays(w, run[0], p);
      PendingSurvives(Apply(w, run[0]), run[1..], p);
    }
  }

  /** The read an `Ask` makes in the current tables. */
  function ReadOf(w: World, p: Pending): Pending
    requires w.past != [] && p.Ask?
  {
    Check(p.socket, p.user, p.event, ReadGeneration(Now(w), p.event.channel, p.user))
  }

  /** A read accepts its event exactly when it finds the user entitled: the current
      generation is never behind an event's stamp. */
  lemma ReadAcceptsExactly(w: World, p: Pending)
    requires Invariant(w) && p in w.pending && p.Ask?
    ensures ReadAccepts(p.event, ReadOf(w, p).result) <==> Entitled(Now(w), p.event.channel, p.user)
  {
    hide SocketOk, Justified, WasEntitled;
    var e := p.event;
    assert EventOk(w.past, e);
    if Entitled(Now(w), e.channel, p.user) {
      assert w.past[e.since].channels[e.channel].generation <= Now(w).channels[e.channel].generation;
    }
  }

  predicate FinishesWith(w: World, q: Pending, time: int, access: bool)
    requires w.past != [] && q.Check?
  {
    && Enabled(w, FinishCheck(q, time))
    && Apply(w, FinishCheck(q, time)).delivered == w.delivered + (if access then {Delivered(q.user, q.event)} else {})
  }

  /** However the run goes on, the read can be finished, and that delivers the event if and
      only if `access`. */
  ghost predicate Concludes(w: World, q: Pending, access: bool)
    requires w.past != [] && q.Check?
  {
    forall run, time :: Legal(w, run) && Unused(run, q) ==> FinishesWith(After(w, run), q, time, access)
  }

  ghost predicate ReadDecides(w: World, p: Pending)
    requires w.past != [] && p.Ask?
  {
    && Enabled(w, ReadForCheck(p))
    && Concludes(Apply(w, ReadForCheck(p)), ReadOf(w, p), Entitled(Now(w), p.event.channel, p.user))
  }

  /** However the run goes on, the read can be made, and its conclusion is what the tables
      say at that moment. */
  ghost predicate AwaitsRead(w: World, p: Pending)
    requires w.past != [] && p.Ask?
  {
    forall run :: Legal(w, run) && Unused(run, p) ==> ReadDecides(After(w, run), p)
  }

  lemma ReadConcludes(w: World, q: Pending)
    requires w.past != [] && q in w.pending && q.Check?
    ensures Concludes(w, q, ReadAccepts(q.event, q.result))
  {
    hide Legal, After;
    forall run, time | Legal(w, run) && Unused(run, q)
      ensures FinishesWith(After(w, run), q, time, ReadAccepts(q.event, q.result))
    {
      PendingSurvives(w, run, q);
    }
  }

  lemma DecisionAwaitsRead(w: World, p: Pending)
    requires Invariant(w) && p in w.pending && p.Ask?
    ensures AwaitsRead(w, p)
  {
    hide Legal, After, HistoryOk, EventOk, SocketOk, PendingOk, Justified, Concludes, Unused, ReadAccepts, Entitled;
    forall run | Legal(w, run) && Unused(run, p)
      ensures ReadDecides(After(w, run), p)
    {
      RunKeepsInvariant(w, run);
      PendingSurvives(w, run, p);
      ReadAcceptsExactly(After(w, run), p);
      ReadConcludes(Apply(After(w, run), ReadForCheck(p)), ReadOf(After(w, run), p));
    }
  }

  lemma EmptyIsOk()
    ensures Invariant(EMPTY)
  {
  }

  /** In every run a subscribed user gets a forwarded event from the cache at once, or a read
      of the tables decides: it stays possible whatever happens in between, finishing it stays
      possible whatever happens after, and the event is then delivered if and only if the user
      had access when the read was made. */
  lemma EntitledUserReceives(run: seq<Step>, socket: nat, e: Event, time: int, ttl: int)
    requires Legal(EMPTY, run)
    requires var w := After(EMPTY, run); socket in w.sockets && e in w.events && e.channel in w.sockets[socket].subs
    ensures var w := After(EMPTY, run);
            var user, w1 := w.sockets[socket].user, Apply(w, Forward(socket, e, time, ttl));
            Delivered(user, e) in w1.delivered || AwaitsRead(w1, Ask(socket, user, e))
  {
    hide Legal, After, HistoryOk, EventOk, SocketOk, PendingOk, Justified, AwaitsRead;
    var w := After(EMPTY, run);
    var forward := Forward(socket, e, time, ttl);
    var p := Ask(socket, w.sockets[socket].user, e);
    EmptyIsOk();
    RunKeepsInvariant(EMPTY, run);
    StepKeepsInvariant(w, forward);
    if p in Apply(w, forward).pending {
      DecisionAwaitsRead(Apply(w, forward), p);
    }
  }

  // ----- the connection object -----

  datatype Verdict = Ignored | Deliver | NeedsRead

  function Elements(channels: seq<nat>): set<nat> {
    set c | c in channels
  }

  lemma DropMore(s: Socket, channels: seq<nat>, i: nat)
    requires i < |channels|
    ensures Drop(Drop(s, Elements(channels[..i])), {channels[i]}) == Drop(s, Elements(channels[..i + 1]))
  {
    assert channels[..i + 1] == channels[..i] + [channels[i]];
    var some, more := Elements(channels[..i]), Elements(channels[..i + 1]);
    assert more == some + {channels[i]};
    assert s.subs - some - {channels[i]} == s.subs - more;
    assert s.generations - some - {channels[i]} == s.generations - more;
    assert s.checked - some - {channels[i]} == s.checked - more;
  }

  /** One socket's dictionaries, updated in place between awaits. */
  class Connection {
    const user: nat
    var subs: set<nat>
    var generations: map<nat, nat>
    var checked: map<nat, int>

    function View(): Socket
      reads this
    {
      Socket(user, subs, generations, checked)
    }

    constructor (user: nat)
      ensures View() == Socket(user, {}, map[], map[])
    {
      this.user := user;
      subs, generations, checked := {}, map[], map[];
    }

    method FinishSubscribe(wanted: set<nat>, states: map<nat, nat>, time: int)
      modifies this
      ensures View() == Subscribe(old(View()), wanted, states, time)
    {
      var granted := wanted * states.Keys;
      subs := granted;
      generations := map c | c in granted :: states[c];
      checked := map c | c in granted :: time;
    }

    method Forget(channel: nat)
      modifies this
      ensures View() == Drop(old(View()), {channel})
    {
      subs, generations, checked := subs - {channel}, generations - {channel}, checked - {channel};
    }

    method HandleUnsubscribe(channels: seq<nat>)
      modifies this
      ensures View() == Drop(old(View()), Elements(channels))
    {
      ghost var before := View();
      var i := 0;
      while i < |channels|
        invariant 0 <= i <= |channels|
        invariant View() == Drop(before, Elements(channels[..i]))
      {
        hide Drop, Elements;
        var c := channels[i];
        DropMore(before, channels, i);
        Forget(c);
        i := i + 1;
      }
      assert channels[..i] == channels;
    }

    method HandleTargeted(channel: nat, approved: bool)
      modifies this
      ensures View() == if approved then old(View()) else Drop(old(View()), {channel})
    {
      if !approved { Forget(channel); }
    }

    /** Up to the first await of forwarding; nothing is written yet. */
    method BeginForward(e: Event, time: int, ttl: int) returns (verdict: Verdict)
      ensures verdict.Ignored? <==> e.channel !in subs
      ensures verdict.Deliver? <==> e.channel in subs && CacheAnswers(View(), e, time, ttl)
    {
      if e.channel !in subs { return Ignored; }
      var checkedAt := if e.channel in checked then checked[e.channel] else 0;
      if e.stamp.Some? && e.channel in generations && e.stamp.value <= generations[e.channel] && time - checkedAt <= ttl {
        return Deliver;
      }
      return NeedsRead;
    }

    /** After the read came back. */
    method FinishForward(e: Event, result: Option<nat>, time: int) returns (deliver: bool)
      modifies this
      ensures View() == AfterRead(old(View()), e, result, time)
      ensures deliver <==> ReadAccepts(e, result)
    {
      if result.None? {
        Forget(e.channel);
        return false;
      }
      if e.stamp.Some? && e.stamp.value > result.value { return false; }
      generations := generations[e.channel := result.value];
      checked := checked[e.channel := time];
      return true;
    }
  }
}
