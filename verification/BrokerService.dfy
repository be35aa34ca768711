/** The same transactions as the services run them: the enqueueing service changes the
    tables in place, the worker walks its key list and talks to the broker as it goes. */
module BrokerService {
  import opened BrokerBindings
  import opened BrokerReuse

  /** From `s` to `s'` each of `pairs` got a row if it had none, and a waiting command of its
      current generation; no existing row changed. */
  ghost predicate Reenqueued(s: State, s': State, pairs: set<Pair>) {
    && s' == s.(projections := s'.projections, open := s'.open)
    && s.open <= s'.open
    && s'.projections.Keys == s.projections.Keys + pairs
    && (forall p :: p in s.projections ==> s'.projections[p] == s.projections[p])
    && (forall p :: p in pairs ==> HasWaitingCommand(s', p))
  }

  lemma NothingReenqueued(s: State)
    ensures Reenqueued(s, s, {})
  {
  }

  lemma ReenqueuedTogether(s: State, s1: State, s2: State, pairs: set<Pair>, p: Pair)
    requires Reenqueued(s, s1, pairs) && Reenqueued(s1, s2, {p})
    ensures Reenqueued(s, s2, pairs + {p}) && s2.channels == s1.channels
  {
    forall q | q in pairs + {p}
      ensures q in s2.projections && HasWaitingCommand(s2, q)
    {
      if q in pairs {
        assert HasWaitingCommand(s1, q);
        var c :| c in s1.open && c !in s1.dead && c.pair == q && c.generation == s1.projections[q].generation;
        assert c in s2.open;
      }
    }
  }

  lemma MoveAcross<T>(a: set<T>, b: set<T>, x: T)
    requires x in b
    ensures a + {x} + (b - {x}) == a + b && |b - {x}| < |b|
  {
  }

  /** A bump enqueues a command that no earlier one equals, so it is not dead-lettered. */
  lemma BumpedOne(s: State, p: Pair)
    requires CommandsOk(s) && p.channel in s.channels
    ensures CommandsOk(Bumped(s, {p})) && p in Bumped(s, {p}).projections && HasWaitingCommand(Bumped(s, {p}), p)
  {
    hide Entitled;
    var s', c := Bumped(s, {p}), Command(p, Bump(s, p).generation, 0);
    assert c !in s.open && c !in s.done && c !in s.dead;
    assert c in s'.open;
  }

  method DistinctKeys(keys: seq<Key>) returns (known: seq<Key>)
    ensures known == Distinct(keys)
  {
    known := [];
    var i := 0;
    while i < |keys|
      invariant 0 <= i <= |keys| && known == Distinct(keys[..i])
    {
      if keys[i] !in known { known := known + [keys[i]]; }
      assert keys[..i + 1][..i] == keys[..i];
      i := i + 1;
    }
    assert keys[..i] == keys;
  }

  /** Unbind each known key, sparing the wanted one if the pair is to stay bound. */
  method UnbindAll(bound: set<(nat, Key)>, user: nat, known: seq<Key>, key: Key, bind: bool) returns (bound': set<(nat, Key)>)
    ensures forall b :: b in bound' <==> b in bound && !(b.0 == user && b.1 in known && !(bind && b.1 == key))
  {
    bound' := bound;
    var i := 0;
    while i < |known|
      invariant 0 <= i <= |known|
      invariant forall b :: b in bound' <==> b in bound && !(b.0 == user && b.1 in known[..i] && !(bind && b.1 == key))
    {
      if !(bind && known[i] == key) {
        bound' := bound' - {(user, known[i])};
      }
      assert known[..i + 1] == known[..i] + [known[i]];
      i := i + 1;
    }
    assert known[..i] == known;
  }

  class Service {
    var state: State
    /** Stands for row ids: no outbox row has this serial or a later one. */
    var nextSerial: nat

    ghost predicate Valid()
      reads this
    {
      0 < nextSerial && CommandsOk(state) && forall c :: c in state.open + state.done ==> c.serial < nextSerial
    }

    constructor ()
      ensures Valid() && state == EMPTY
    {
      state := EMPTY;
      nextSerial := 1;
    }

    /** Record the current desired state of one pair and enqueue a command for it. */
    method EnqueueBinding(p: Pair)
      requires Valid() && p.channel in state.channels
      modifies this`state
      ensures Valid() && state == Bumped(old(state), {p})
    {
      ghost var before := state;
      var channel := state.channels[p.channel];
      var desired := !channel.deleted && p in state.roles && Approved(state.roles[p]);
      var row;
      if p !in state.projections {
        row := Projection(1, desired, channel.slug, [channel.slug], 0);
      } else {
        row := state.projections[p];
        var known := row.keys;
        if row.desiredKey !in known { known := known + [row.desiredKey]; }
        if channel.slug !in known { known := known + [channel.slug]; }
        row := Projection(row.generation + 1, desired, channel.slug, known, row.reconciled);
      }
      assert row == Bump(before, p);
      state := state.(projections := state.projections[p := row], open := state.open + {Command(p, row.generation, 0)});
      assert state.projections == Bumped(before, {p}).projections;
      assert state.open == Bumped(before, {p}).open;
      BumpedOne(before, p);
    }

    /** One pair of the repair: a snapshot of the row, or the row it never had. */
    method ReenqueueOne(p: Pair)
      requires Valid() && p.channel in state.channels
      modifies this
      ensures Valid() && Reenqueued(old(state), state, {p})
    {
      hide Bump;
      ghost var before := state;
      if p in state.projections {
        var c := Command(p, state.projections[p].generation, nextSerial);
        state := state.(open := state.open + {c});
        nextSerial := nextSerial + 1;
        assert c in state.open;
      } else {
        BumpedOne(state, p);
        EnqueueBinding(p);
      }
    }

    /** The operator's repair: every known or missing pair gets a command of its current generation. */
    method ReenqueueAll()
      requires Valid() && forall p :: p in state.roles.Keys + state.projections.Keys ==> p.channel in state.channels
      modifies this
      ensures Valid() && Reenqueued(old(state), state, old(state.roles.Keys + state.projections.Keys))
    {
      hide Reenqueued, HasWaitingCommand;
      ghost var before := state;
      ghost var pairs, covered: set<Pair> := state.roles.Keys + state.projections.Keys, {};
      var todo := state.roles.Keys + state.projections.Keys;
      NothingReenqueued(before);
      while todo != {}
        invariant Valid() && covered + todo == pairs
        invariant state.channels == before.channels
        invariant Reenqueued(before, state, covered)
        decreases |todo|
      {
        var p :| p in todo;
        ghost var s0 := state;
        ReenqueueOne(p);
        ReenqueuedTogether(before, s0, state, covered, p);
        MoveAcross(covered, todo, p);
        covered, todo := covered + {p}, todo - {p};
      }
    }

    /** One uninterrupted application of a command: exactly the worker's run of broker steps. */
    method ApplyBinding(c: Command) returns (applied: bool)
      requires Valid() && Enabled(state, Start(c))
      modifies this`state
      ensures Valid()
      ensures applied <==> c.generation == old(state).projections[c.pair].generation
      ensures !applied ==> state == old(state).(open := old(state.open) - {c}, done := old(state.done) + {c})
      ensures applied ==> Legal(old(state), Application(old(state), c)) && state == After(old(state), Application(old(state), c))
    {
      hide Legal, After, Application, Plan, PerformAll, Distinct;
      ghost var before := state;
      var p := c.pair;
      var row, channel := state.projections[p], state.channels[p.channel];
      if c.generation != row.generation {
        state := state.(open := state.open - {c}, done := state.done + {c});
        return false;
      }
      var known := DistinctKeys(row.keys + [row.desiredKey, channel.slug]);
      DistinctMembers(row.keys + [row.desiredKey, channel.slug]);
      var bind := !channel.deleted && p in state.roles && Approved(state.roles[p]);
      var bound := UnbindAll(state.bound, p.user, known, channel.slug, bind);
      if bind {
        bound := bound + {(p.user, channel.slug)};
      }
      PerformPlan(before.bound, p.user, known, channel.slug, bind);
      ApplicationRun(before, c);
      assert bound == PerformAll(before.bound, p.user, StartJob(before, c).todo);
      state := state.(bound := bound,
                      projections := state.projections[p := Projection(row.generation, bind, channel.slug, [channel.slug], row.generation)],
                      open := state.open - {c},
                      done := state.done + {c});
      applied := true;
    }
  }
}
