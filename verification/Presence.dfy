/** Lease-based presence: per-user leases, an index of their expiry times, the names of
    users believed online, and Redis dropping a user's key when its time to live runs out.
    Each script is one atomic step; `now` is the clock it is called with. */
module Presence {
  import Rows

  datatype Member = Member(user: nat, connection: nat)

  /** `expireAt` is when Redis drops a user's lease key; `clock` the latest time used. */
  datatype Tables = Tables(
    leases: map<Member, int>,
    index: map<Member, int>,
    usernames: map<nat, string>,
    online: set<string>,
    expireAt: map<nat, int>,
    clock: int)

  const EMPTY := Tables(map[], map[], map[], {}, map[], 0)

  /** Usernames are fixed per user and unique; leases last at least a second. */
  datatype Settings = Settings(name: nat -> string, lease: int) {
    ghost predicate Valid() {
      0 < lease && forall u, v :: name(u) == name(v) ==> u == v
    }

    function KeyTtl(): int { if lease + 1 >= 2 * lease then lease + 1 else 2 * lease }
  }

  datatype Transition = Online | Offline | NoChange

  // ----- the scripts as functions of the tables -----

  function ExpiredOf(leases: map<Member, int>, user: nat, now: int): set<Member> {
    set m | m in leases && m.user == user && leases[m] <= now
  }

  function LeasesOf(leases: map<Member, int>, user: nat): set<Member> {
    set m | m in leases && m.user == user
  }

  /** Both scripts start by dropping the user's expired leases from both sorted sets. */
  function Purged(t: Tables, user: nat, now: int): Tables {
    var expired := ExpiredOf(t.leases, user, now);
    t.(leases := t.leases - expired, index := t.index - expired, clock := now)
  }

  /** The second half of a registration, after the purge. */
  function WithLease(c: Settings, p: Tables, m: Member, now: int): Tables {
    p.(leases := p.leases[m := now + c.lease],
       index := p.index[m := now + c.lease],
       usernames := p.usernames[m.user := c.name(m.user)],
       online := p.online + {c.name(m.user)},
       expireAt := p.expireAt[m.user := now + c.KeyTtl()])
  }

  function Registered(c: Settings, t: Tables, m: Member, now: int): Tables {
    WithLease(c, Purged(t, m.user, now), m, now)
  }

  function Forgotten(c: Settings, t: Tables, user: nat): Tables {
    t.(usernames := t.usernames - {user}, online := t.online - {c.name(user)})
  }

  function Disconnected(c: Settings, t: Tables, m: Member, now: int): Tables {
    var p := Purged(t, m.user, now);
    var q := p.(leases := p.leases - {m}, index := p.index - {m});
    if LeasesOf(q.leases, m.user) == {} then Forgotten(c, q, m.user) else q
  }

  /** What the reaper does with one index entry that was due when it was listed. */
  function ReapedOne(c: Settings, t: Tables, m: Member, now: int): Tables {
    if m !in t.index || t.index[m] > now then t
    else
      var q := t.(index := t.index - {m}, leases := t.leases - ExpiredOf(t.leases, m.user, now));
      if LeasesOf(q.leases, m.user) == {} && m.user in q.usernames
      then q.(usernames := q.usernames - {m.user}, online := q.online - {q.usernames[m.user]})
      else q
  }

  function Reaped(c: Settings, t: Tables, due: seq<Member>, now: int): Tables {
    if due == [] then t else ReapedOne(c, Reaped(c, t, due[..|due| - 1], now), due[|due| - 1], now)
  }

  /** Redis drops the user's lease key. */
  function KeyExpired(t: Tables, user: nat, now: int): Tables {
    t.(leases := t.leases - LeasesOf(t.leases, user), clock := now)
  }

  // ----- the invariant -----

  predicate HasIndexEntry(t: Tables, user: nat) {
    exists m :: m in t.index && m.user == user
  }

  predicate LeasesOk(t: Tables) {
    && (forall m :: m in t.leases ==> m in t.index && t.index[m] == t.leases[m])
    && (forall m :: m in t.leases ==> m.user in t.usernames)
    && (forall m :: m in t.leases ==> m.user in t.expireAt && t.leases[m] < t.expireAt[m.user])
  }

  predicate IndexOk(t: Tables) {
    && (forall m :: m in t.index && m !in t.leases ==> t.index[m] <= t.clock)
    && (forall u :: u in t.usernames ==> HasIndexEntry(t, u))
  }

  predicate NamesOk(c: Settings, t: Tables) {
    && (forall u :: u in t.usernames ==> t.usernames[u] == c.name(u) && c.name(u) in t.online)
    && (forall n :: n in t.online ==> exists u :: u in t.usernames && c.name(u) == n)
  }

  predicate DeadlinesOk(c: Settings, t: Tables) {
    forall u :: u in t.expireAt ==> t.expireAt[u] <= t.clock + c.KeyTtl()
  }

  predicate Invariant(c: Settings, t: Tables) {
    LeasesOk(t) && IndexOk(t) && NamesOk(c, t) && DeadlinesOk(c, t)
  }

  lemma EmptyOk(c: Settings)
    ensures Invariant(c, EMPTY)
  {
  }

  // ----- each script keeps it -----

  /** Everything but an index entry for the one user a script is busy with. */
  predicate InvariantBut(c: Settings, t: Tables, user: nat) {
    && LeasesOk(t) && NamesOk(c, t) && DeadlinesOk(c, t)
    && (forall m :: m in t.index && m !in t.leases ==> t.index[m] <= t.clock)
    && (forall u :: u in t.usernames && u != user ==> HasIndexEntry(t, u))
  }

  lemma PurgeKeeps(c: Settings, t: Tables, user: nat, now: int)
    requires Invariant(c, t) && t.clock <= now
    ensures InvariantBut(c, Purged(t, user, now), user)
  {
    hide NamesOk;
    var t' := Purged(t, user, now);
    forall u | u in t'.usernames && u != user
      ensures HasIndexEntry(t', u)
    {
      assert HasIndexEntry(t, u);
      var e :| e in t.index && e.user == u;
      assert e in t'.index;
    }
    NamesDependOn(c, t, t');
  }

  lemma NamesDependOn(c: Settings, t: Tables, t': Tables)
    requires NamesOk(c, t) && t'.usernames == t.usernames && t'.online == t.online
    ensures NamesOk(c, t')
  {
  }

  lemma NameAdded(c: Settings, t: Tables, t': Tables, user: nat)
    requires NamesOk(c, t)
    requires t'.usernames == t.usernames[user := c.name(user)] && t'.online == t.online + {c.name(user)}
    ensures NamesOk(c, t')
  {
    forall n | n in t'.online
      ensures exists u :: u in t'.usernames && c.name(u) == n
    {
      if n in t.online {
        var u :| u in t.usernames && c.name(u) == n;
        assert u in t'.usernames;
      } else {
        assert user in t'.usernames;
      }
    }
  }

  lemma NameRemoved(c: Settings, t: Tables, t': Tables, user: nat)
    requires c.Valid() && NamesOk(c, t)
    requires t'.usernames == t.usernames - {user} && t'.online == t.online - {c.name(user)}
    ensures NamesOk(c, t')
  {
    forall n | n in t'.online
      ensures exists u :: u in t'.usernames && c.name(u) == n
    {
      var u :| u in t.usernames && c.name(u) == n;
      assert u in t'.usernames;
    }
  }

  lemma LeaseIndexed(c: Settings, p: Tables, m: Member, now: int)
    requires c.Valid() && InvariantBut(c, p, m.user) && p.clock == now
    ensures IndexOk(WithLease(c, p, m, now))
  {
    hide NamesOk, DeadlinesOk, LeasesOk;
    var t' := WithLease(c, p, m, now);
    assert m in t'.index;
    forall u | u in t'.usernames
      ensures HasIndexEntry(t', u)
    {
      if u != m.user {
        assert HasIndexEntry(p, u);
        var e :| e in p.index && e.user == u;
        assert e in t'.index;
      }
    }
  }

  lemma AddLease(c: Settings, p: Tables, m: Member, now: int)
    requires c.Valid() && InvariantBut(c, p, m.user) && p.clock == now
    ensures Invariant(c, WithLease(c, p, m, now))
  {
    hide NamesOk, IndexOk, HasIndexEntry;
    NameAdded(c, p, WithLease(c, p, m, now), m.user);
    LeaseIndexed(c, p, m, now);
  }

  lemma RegisterKeepsInvariant(c: Settings, t: Tables, m: Member, now: int)
    requires c.Valid() && Invariant(c, t) && t.clock <= now
    ensures Invariant(c, Registered(c, t, m, now))
  {
    hide Invariant, InvariantBut, WithLease;
    PurgeKeeps(c, t, m.user, now);
    AddLease(c, Purged(t, m.user, now), m, now);
  }

  /** A user without leases may be forgotten; a user with one has an index entry. */
  lemma SettleUser(c: Settings, q: Tables, user: nat)
    requires c.Valid() && InvariantBut(c, q, user)
    ensures Invariant(c, if LeasesOf(q.leases, user) == {} then Forgotten(c, q, user) else q)
  {
    hide NamesOk;
    if LeasesOf(q.leases, user) == {} {
      var t' := Forgotten(c, q, user);
      NameRemoved(c, q, t', user);
      forall u | u in t'.usernames
        ensures HasIndexEntry(t', u)
      {
        assert HasIndexEntry(q, u);
      }
      assert forall m :: m in q.leases && m.user == user ==> m in LeasesOf(q.leases, user);
    } else {
      var m :| m in LeasesOf(q.leases, user);
      assert m in q.index;
      assert HasIndexEntry(q, user);
    }
  }

  lemma RemoveMember(c: Settings, p: Tables, m: Member)
    requires InvariantBut(c, p, m.user)
    ensures InvariantBut(c, p.(leases := p.leases - {m}, index := p.index - {m}), m.user)
  {
    hide NamesOk;
    var q := p.(leases := p.leases - {m}, index := p.index - {m});
    NamesDependOn(c, p, q);
    forall u | u in q.usernames && u != m.user
      ensures HasIndexEntry(q, u)
    {
      assert HasIndexEntry(p, u);
      var e :| e in p.index && e.user == u;
      assert e in q.index;
    }
  }

  lemma DisconnectKeepsInvariant(c: Settings, t: Tables, m: Member, now: int)
    requires c.Valid() && Invariant(c, t) && t.clock <= now
    ensures Invariant(c, Disconnected(c, t, m, now))
  {
    hide Invariant, InvariantBut, Purged, LeasesOf, Forgotten;
    var p := Purged(t, m.user, now);
    PurgeKeeps(c, t, m.user, now);
    RemoveMember(c, p, m);
    SettleUser(c, p.(leases := p.leases - {m}, index := p.index - {m}), m.user);
  }

  lemma DropDueMember(c: Settings, t: Tables, m: Member, now: int)
    requires Invariant(c, t) && t.clock == now && m in t.index && t.index[m] <= now
    ensures InvariantBut(c, t.(index := t.index - {m}, leases := t.leases - ExpiredOf(t.leases, m.user, now)), m.user)
  {
    hide NamesOk;
    var q := t.(index := t.index - {m}, leases := t.leases - ExpiredOf(t.leases, m.user, now));
    NamesDependOn(c, t, q);
    forall u | u in q.usernames && u != m.user
      ensures HasIndexEntry(q, u)
    {
      assert HasIndexEntry(t, u);
      var e :| e in t.index && e.user == u;
      assert e in q.index;
    }
  }

  lemma ReapOneKeepsInvariant(c: Settings, t: Tables, m: Member, now: int)
    requires c.Valid() && Invariant(c, t) && t.clock == now
    ensures Invariant(c, ReapedOne(c, t, m, now)) && ReapedOne(c, t, m, now).clock == now
  {
    hide InvariantBut, LeasesOf, LeasesOk, IndexOk, DeadlinesOk;
    if m in t.index && t.index[m] <= now {
      var q := t.(index := t.index - {m}, leases := t.leases - ExpiredOf(t.leases, m.user, now));
      DropDueMember(c, t, m, now);
      SettleUser(c, q, m.user);
      UnknownUser(c, q, m.user);
    }
  }

  /** Forgetting a user the hash does not know changes nothing. */
  lemma UnknownUser(c: Settings, t: Tables, user: nat)
    requires c.Valid() && NamesOk(c, t)
    ensures user !in t.usernames ==> Forgotten(c, t, user) == t
    ensures user in t.usernames ==> t.usernames[user] == c.name(user)
  {
    if user !in t.usernames {
      assert t.usernames - {user} == t.usernames;
      assert t.online - {c.name(user)} == t.online;
    }
  }

  lemma {:induction false} ReapKeepsInvariant(c: Settings, t: Tables, due: seq<Member>, now: int)
    requires c.Valid() && Invariant(c, t) && t.clock == now
    ensures Invariant(c, Reaped(c, t, due, now)) && Reaped(c, t, due, now).clock == now
  {
    hide Invariant, ReapedOne;
    if due != [] {
      ReapKeepsInvariant(c, t, due[..|due| - 1], now);
      ReapOneKeepsInvariant(c, Reaped(c, t, due[..|due| - 1], now), due[|due| - 1], now);
    }
  }

  /** By the time Redis drops a user's key, all its leases have expired. */
  lemma KeyExpiryKeepsInvariant(c: Settings, t: Tables, user: nat, now: int)
    requires Invariant(c, t) && t.clock <= now && user in t.expireAt && t.expireAt[user] <= now
    ensures Invariant(c, KeyExpired(t, user, now))
    ensures LeasesOf(t.leases, user) == ExpiredOf(t.leases, user, now)
  {
    hide NamesOk;
    var t' := KeyExpired(t, user, now);
    NamesDependOn(c, t, t');
    forall u | u in t'.usernames
      ensures HasIndexEntry(t', u)
    {
      assert HasIndexEntry(t, u);
    }
  }

  // ----- whole runs -----

  datatype Step =
    | Register(member: Member, now: int)
    | Disconnect(member: Member, now: int)
    | Reap(due: seq<Member>, now: int)
    | ExpireKey(user: nat, now: int)

  predicate Enabled(t: Tables, a: Step) {
    && t.clock <= a.now
    && (a.ExpireKey? ==> a.user in t.expireAt && t.expireAt[a.user] <= a.now)
  }

  function Apply(c: Settings, t: Tables, a: Step): Tables
    requires Enabled(t, a)
  {
    match a
    case Register(m, now) => Registered(c, t, m, now)
    case Disconnect(m, now) => Disconnected(c, t, m, now)
    case Reap(due, now) => Reaped(c, t.(clock := now), due, now)
    case ExpireKey(user, now) => KeyExpired(t, user, now)
  }

  lemma TickKeepsInvariant(c: Settings, t: Tables, now: int)
    requires Invariant(c, t) && t.clock <= now
    ensures Invariant(c, t.(clock := now))
  {
    hide NamesOk;
    var t' := t.(clock := now);
    NamesDependOn(c, t, t');
    forall u | u in t'.usernames
      ensures HasIndexEntry(t', u)
    {
      assert HasIndexEntry(t, u);
    }
  }

  lemma StepKeepsInvariant(c: Settings, t: Tables, a: Step)
    requires c.Valid() && Invariant(c, t) && Enabled(t, a)
    ensures Invariant(c, Apply(c, t, a))
  {
    hide Invariant, Registered, Disconnected, Reaped, KeyExpired;
    match a
    case Register(m, now) => RegisterKeepsInvariant(c, t, m, now);
    case Disconnect(m, now) => DisconnectKeepsInvariant(c, t, m, now);
    case Reap(due, now) =>
      TickKeepsInvariant(c, t, now);
      ReapKeepsInvariant(c, t.(clock := now), due, now);
    case ExpireKey(user, now) => KeyExpiryKeepsInvariant(c, t, user, now);
  }

  predicate Legal(c: Settings, t: Tables, run: seq<Step>)
    decreases |run|
  {
    run == [] || (Enabled(t, run[0]) && Legal(c, Apply(c, t, run[0]), run[1..]))
  }

  function After(c: Settings, t: Tables, run: seq<Step>): Tables
    requires Legal(c, t, run)
    decreases |run|
  {
    if run == [] then t else After(c, Apply(c, t, run[0]), run[1..])
  }

  lemma {:induction false} RunKeepsInvariant(c: Settings, t: Tables, run: seq<Step>)
    requires c.Valid() && Invariant(c, t) && Legal(c, t, run)
    ensures Invariant(c, After(c, t, run))
    decreases |run|
  {
    if run != [] {
      hide Invariant, Enabled, Apply;
      StepKeepsInvariant(c, t, run[0]);
      RunKeepsInvariant(c, Apply(c, t, run[0]), run[1..]);
    }
  }

  predicate HoldsLease(t: Tables, user: nat, after: int) {
    exists m :: m in t.leases && m.user == user && t.leases[m] > after
  }

  predicate NothingDue(t: Tables, now: int) {
    forall m :: m in t.index ==> t.index[m] > now
  }

  ghost predicate ExactlyLive(c: Settings, t: Tables) {
    && (forall u :: c.name(u) in t.online <==> HoldsLease(t, u, t.clock))
    && (forall n :: n in t.online ==> exists u :: c.name(u) == n)
  }

  /** In every run with a non-decreasing clock: leases agree with the index and mean online,
      an online name belongs to a user with an index entry, and once nothing is due the
      online names are exactly those of users with a later lease. */
  lemma EveryRunIsConsistent(c: Settings, run: seq<Step>)
    requires c.Valid() && Legal(c, EMPTY, run)
    ensures var t := After(c, EMPTY, run);
            && (forall m :: m in t.leases ==> m in t.index && t.index[m] == t.leases[m] && c.name(m.user) in t.online)
            && (forall n :: n in t.online ==> exists u :: c.name(u) == n && HasIndexEntry(t, u))
            && (NothingDue(t, t.clock) ==> ExactlyLive(c, t))
  {
    hide Legal, After, DeadlinesOk;
    EmptyOk(c);
    RunKeepsInvariant(c, EMPTY, run);
    var t := After(c, EMPTY, run);
    if NothingDue(t, t.clock) {
      NothingDueIsExact(c, t);
    }
    forall n | n in t.online
      ensures exists u :: c.name(u) == n && HasIndexEntry(t, u)
    {
      var u :| u in t.usernames && c.name(u) == n;
      assert HasIndexEntry(t, u);
    }
  }

  lemma NothingDueIsExact(c: Settings, t: Tables)
    requires c.Valid() && Invariant(c, t) && NothingDue(t, t.clock)
    ensures ExactlyLive(c, t)
  {
    forall u | c.name(u) in t.online
      ensures HoldsLease(t, u, t.clock)
    {
      var v :| v in t.usernames && c.name(v) == c.name(u);
      assert HasIndexEntry(t, u);
      var m :| m in t.index && m.user == u;
      assert m in t.leases;
    }
    forall u | HoldsLease(t, u, t.clock)
      ensures c.name(u) in t.online
    {
      var m :| m in t.leases && m.user == u && t.leases[m] > t.clock;
    }
  }

  // ----- the service -----

  function DueEntries(t: Tables, now: int): set<Member> {
    set m | m in t.index && t.index[m] <= now
  }

  /** Up to `batch` index entries whose time has come. */
  method ListDue(t: Tables, now: int, batch: nat) returns (due: seq<Member>)
    ensures |due| <= batch && (forall i :: 0 <= i < |due| ==> due[i] in t.index && t.index[due[i]] <= now)
    ensures due == [] ==> batch == 0 || NothingDue(t, now)
  {
    var rest := DueEntries(t, now);
    due := [];
    while rest != {} && |due| < batch
      invariant rest <= DueEntries(t, now)
      invariant |due| <= batch && (forall i :: 0 <= i < |due| ==> due[i] in DueEntries(t, now))
      invariant due == [] ==> rest == DueEntries(t, now)
      decreases |rest|
    {
      var m :| m in rest;
      due, rest := due + [m], rest - {m};
    }
    NoDueEntries(t, now);
  }

  function WithClock(t: Tables, now: int): Tables { t.(clock := now) }

  class Service {
    const c: Settings
    var t: Tables

    ghost predicate Valid()
      reads this
    {
      c.Valid() && Invariant(c, t)
    }

    constructor (c: Settings)
      requires c.Valid()
      ensures Valid() && this.c == c && t == EMPTY
    {
      this.c, t := c, EMPTY;
      new;
      EmptyOk(c);
    }

    /** Remove the user's expired leases, one index entry at a time, then the leases. */
    method Purge(user: nat, now: int)
      modifies this
      ensures t == Purged(old(t), user, now)
    {
      var expired := ExpiredOf(t.leases, user, now);
      var rest, index := expired, t.index;
      while rest != {}
        invariant rest <= expired && index == t.index - (expired - rest)
        decreases |rest|
      {
        var m :| m in rest;
        assert expired - (rest - {m}) == expired - rest + {m};
        index, rest := index - {m}, rest - {m};
      }
      assert expired - rest == expired;
      t := t.(leases := t.leases - expired, index := index, clock := now);
    }

    method RegisterOrRefresh(m: Member, now: int) returns (transition: Transition)
      requires Valid() && t.clock <= now
      modifies this
      ensures Valid() && t == Registered(c, old(t), m, now)
      ensures transition == if HoldsLease(old(t), m.user, now) then NoChange else Online
    {
      hide Invariant;
      RegisterKeepsInvariant(c, t, m, now);
      UnexpiredLeases(t, m.user, now);
      Purge(m.user, now);
      var before := LeasesOf(t.leases, m.user);
      t := t.(leases := t.leases[m := now + c.lease],
              index := t.index[m := now + c.lease],
              usernames := t.usernames[m.user := c.name(m.user)],
              online := t.online + {c.name(m.user)},
              expireAt := t.expireAt[m.user := now + c.KeyTtl()]);
      transition := if before == {} then Online else NoChange;
    }

    method DisconnectOne(m: Member, now: int) returns (transition: Transition)
      requires Valid() && t.clock <= now
      modifies this
      ensures Valid() && t == Disconnected(c, old(t), m, now)
      ensures transition == if HoldsLease(old(t), m.user, now) && !HoldsLease(t, m.user, now) then Offline else NoChange
    {
      hide Invariant;
      DisconnectKeepsInvariant(c, t, m, now);
      UnexpiredLeases(t, m.user, now);
      ghost var purged := Purged(t, m.user, now);
      Purge(m.user, now);
      var before := LeasesOf(t.leases, m.user);
      t := t.(leases := t.leases - {m}, index := t.index - {m});
      RemainingLeases(purged, t, m, now);
      var remaining := LeasesOf(t.leases, m.user);
      if remaining == {} {
        t := t.(usernames := t.usernames - {m.user}, online := t.online - {c.name(m.user)});
      }
      transition := if remaining == {} && before != {} then Offline else NoChange;
    }

    /** One reaper call: up to `batch` due index entries. */
    method ReapExpired(now: int, batch: nat) returns (due: seq<Member>, offline: set<string>)
      requires Valid() && t.clock <= now
      modifies this
      ensures Valid() && t == Reaped(c, old(t).(clock := now), due, now)
      ensures |due| <= batch && (forall i :: 0 <= i < |due| ==> due[i] in old(t).index && old(t).index[due[i]] <= now)
      ensures t.clock == now && offline == old(t).online - t.online
      ensures due == [] ==> t == WithClock(old(t), now) && (batch == 0 || NothingDue(t, now))
    {
      hide Invariant, ReapedOne;
      offline := {};
      due := ListDue(t, now, batch);
      ghost var start := t.(clock := now);
      TickKeepsInvariant(c, t, now);
      t := t.(clock := now);
      ReapKeepsInvariant(c, start, due, now);
      var i := 0;
      while i < |due|
        invariant 0 <= i <= |due| && t == Reaped(c, start, due[..i], now)
        invariant t.online <= start.online && offline == start.online - t.online
      {
        assert due[..i + 1][..i] == due[..i];
        ReapingTakesOffline(c, t, due[i], now);
        var next := ReapedOne(c, t, due[i], now);
        offline := offline + (t.online - next.online);
        t, i := next, i + 1;
      }
      assert due[..i] == due;
    }

    /** Reaping until nothing is due. */
    method ReapToExhaustion(now: int, batch: nat)
      requires Valid() && t.clock <= now && 0 < batch
      modifies this
      ensures Valid() && t.clock == now && NothingDue(t, now) && ExactlyLive(c, t)
    {
      hide ReapedOne, Reaped, LeasesOk, IndexOk, NamesOk, DeadlinesOk;
      while true
        invariant Valid() && t.clock <= now
        decreases |DueEntries(t, now)|
      {
        ghost var before := t;
        var due, _ := ReapExpired(now, batch);
        if due == [] { break; }
        ReapShrinks(c, before, due, now);
      }
      NothingDueIsExact(c, t);
    }
  }

  lemma NoDueEntries(t: Tables, now: int)
    ensures DueEntries(t, now) == {} <==> NothingDue(t, now)
  {
    if DueEntries(t, now) == {} {
      forall m | m in t.index
        ensures t.index[m] > now
      {
        assert m !in DueEntries(t, now);
      }
    }
  }

  /** After the purge a user's leases are exactly the unexpired ones. */
  lemma UnexpiredLeases(t: Tables, user: nat, now: int)
    ensures LeasesOf(Purged(t, user, now).leases, user) != {} <==> HoldsLease(t, user, now)
  {
    var left := LeasesOf(Purged(t, user, now).leases, user);
    if HoldsLease(t, user, now) {
      var m :| m in t.leases && m.user == user && t.leases[m] > now;
      assert m in left;
    }
    if left != {} {
      var m :| m in left;
      assert m in t.leases && m.user == user && t.leases[m] > now;
    }
  }

  lemma RemainingLeases(p: Tables, q: Tables, m: Member, now: int)
    requires q.leases == p.leases - {m} && forall l :: l in p.leases && l.user == m.user ==> p.leases[l] > now
    ensures LeasesOf(q.leases, m.user) != {} <==> HoldsLease(q, m.user, now)
  {
    if l :| l in LeasesOf(q.leases, m.user) {
      assert l in q.leases && q.leases[l] > now;
    }
    if HoldsLease(q, m.user, now) {
      var l :| l in q.leases && l.user == m.user && q.leases[l] > now;
      assert l in LeasesOf(q.leases, m.user);
    }
  }

  lemma ReapedOneIndex(c: Settings, t: Tables, m: Member, now: int)
    requires m in t.index ==> t.index[m] <= now
    ensures ReapedOne(c, t, m, now).index == t.index - {m}
  {
    if m !in t.index {
      assert t.index - {m} == t.index;
    }
  }

  lemma ReapingTakesOffline(c: Settings, t: Tables, m: Member, now: int)
    ensures ReapedOne(c, t, m, now).online <= t.online
  {
  }

  /** Reaping never adds an index entry and removes every one it is given. */
  lemma {:induction false} ReapedIndex(c: Settings, t: Tables, due: seq<Member>, now: int)
    requires forall i :: 0 <= i < |due| ==> due[i] in t.index && t.index[due[i]] <= now
    ensures Reaped(c, t, due, now).index == t.index - (set m | m in due)
  {
    hide ReapedOne;
    if due == [] {
      assert t.index - (set m | m in due) == t.index;
    } else {
      var front, m := due[..|due| - 1], due[|due| - 1];
      ReapedIndex(c, t, front, now);
      assert due == front + [m];
      var t1 := Reaped(c, t, front, now);
      ReapedOneIndex(c, t1, m, now);
      assert (set k | k in due) == (set k | k in front) + {m};
      assert t1.index - {m} == t.index - (set k | k in due);
    }
  }

  lemma ReapShrinks(c: Settings, t: Tables, due: seq<Member>, now: int)
    requires due != [] && forall i :: 0 <= i < |due| ==> due[i] in t.index && t.index[due[i]] <= now
    ensures |DueEntries(Reaped(c, WithClock(t, now), due, now), now)| < |DueEntries(t, now)|
  {
    hide Reaped;
    ReapedIndex(c, WithClock(t, now), due, now);
    var after := DueEntries(Reaped(c, WithClock(t, now), due, now), now);
    assert after <= DueEntries(t, now) - {due[0]};
    SmallerSet(after, DueEntries(t, now), due[0]);
  }

  lemma SmallerSet(a: set<Member>, b: set<Member>, m: Member)
    requires a <= b - {m} && m in b
    ensures |a| < |b|
  {
    Rows.SubsetSize(a, b - {m});
  }
}
