/** The projection of channel membership onto RabbitMQ queue bindings: transactions that
    change membership, slug or deletion bump a per-pair generation and enqueue a command;
    workers apply commands late, twice, out of order, and crash between any two broker
    operations. Each step below is one transaction or one broker operation. */
module BrokerBindings {

  /** The routing key of a slug stands for the slug itself. */
  type Key = nat

  datatype Pair = Pair(channel: nat, user: nat)

  datatype Role = Owner | Admin | Member | Pending

  datatype Channel = Channel(slug: Key, deleted: bool)

  /** One broker_binding_states row. */
  datatype Projection = Projection(generation: nat, desiredBound: bool, desiredKey: Key, keys: seq<Key>, reconciled: nat)

  /** One broker_binding outbox row; `serial` separates rows of the same generation. */
  datatype Command = Command(pair: Pair, generation: nat, serial: nat)

  datatype BrokerOp = Bind(key: Key) | Unbind(key: Key)

  /** A worker transaction that holds the pair's row lock. */
  datatype Job = Job(command: Command, key: Key, bind: bool, known: seq<Key>, todo: seq<BrokerOp>)

  /** `open` are the outbox rows in any status but published, `dead` those of them that are
      dead-lettered, `done` the published ones; `bound` holds which user queue is bound
      under which key. */
  datatype State = State(
    channels: map<nat, Channel>,
    roles: map<Pair, Role>,
    projections: map<Pair, Projection>,
    open: set<Command>,
    dead: set<Command>,
    done: set<Command>,
    bound: set<(nat, Key)>,
    jobs: map<Pair, Job>)

  const EMPTY := State(map[], map[], map[], {}, {}, {}, {}, map[])

  predicate Approved(role: Role) { role != Pending }

  predicate IsApproved(s: State, p: Pair) { p in s.roles && Approved(s.roles[p]) }

  /** What the authorisation tables say about the pair now. */
  predicate Entitled(s: State, p: Pair) {
    p.channel in s.channels && !s.channels[p.channel].deleted && IsApproved(s, p)
  }

  function ApprovedPairs(s: State, channel: nat): set<Pair> {
    set p | p in s.roles && p.channel == channel && Approved(s.roles[p])
  }

  // ----- enqueueing -----

  function WithKey(keys: seq<Key>, k: Key): seq<Key> {
    if k in keys then keys else keys + [k]
  }

  function Bump(s: State, p: Pair): Projection
    requires p.channel in s.channels
  {
    var key := s.channels[p.channel].slug;
    if p in s.projections then
      var row := s.projections[p];
      Projection(row.generation + 1, Entitled(s, p), key, WithKey(WithKey(row.keys, row.desiredKey), key), row.reconciled)
    else
      Projection(1, Entitled(s, p), key, [key], 0)
  }

  /** Bump every pair in `pairs` and enqueue a command for each. */
  function Bumped(s: State, pairs: set<Pair>): State
    requires forall p :: p in pairs ==> p.channel in s.channels
  {
    s.(projections := map p | p in s.projections.Keys + pairs :: if p in pairs then Bump(s, p) else s.projections[p],
       open := s.open + set p | p in pairs :: Command(p, Bump(s, p).generation, 0))
  }

  // ----- the worker -----

  function Distinct(keys: seq<Key>): seq<Key> {
    if keys == [] then [] else WithKey(Distinct(keys[..|keys| - 1]), keys[|keys| - 1])
  }

  function Unbinds(keys: seq<Key>): seq<BrokerOp> {
    if keys == [] then [] else [Unbind(keys[0])] + Unbinds(keys[1..])
  }

  function Without(keys: seq<Key>, k: Key): seq<Key> {
    if keys == [] then [] else (if keys[0] == k then [] else [keys[0]]) + Without(keys[1..], k)
  }

  function Plan(known: seq<Key>, key: Key, bind: bool): seq<BrokerOp> {
    if bind then Unbinds(Without(known, key)) + [Bind(key)] else Unbinds(known)
  }

  function StartJob(s: State, c: Command): Job
    requires c.pair in s.projections && c.pair.channel in s.channels
  {
    var row, key, bind := s.projections[c.pair], s.channels[c.pair.channel].slug, Entitled(s, c.pair);
    var known := Distinct(row.keys + [row.desiredKey, key]);
    Job(c, key, bind, known, Plan(known, key, bind))
  }

  function Perform(bound: set<(nat, Key)>, user: nat, op: BrokerOp): set<(nat, Key)> {
    match op
    case Bind(k) => bound + {(user, k)}
    case Unbind(k) => bound - {(user, k)}
  }

  function Reconciled(row: Projection, job: Job): Projection {
    Projection(row.generation, job.bind, job.key, [job.key], row.generation)
  }

  // ----- steps -----

  /** Abort is a crash or a failed attempt that will be retried: broker operations stay, the
      transaction is gone and the command waits again. DeadLetter is the last failed attempt:
      no worker selects the command any more. ManualRetry reopens a dead-lettered command, or
      one that was published between its unlocked read and its write. */
  datatype Step =
    | Create(channel: nat, user: nat, slug: Key)
    | SetRole(pair: Pair, role: Role)
    | Remove(pair: Pair)
    | Rename(channel: nat, slug: Key)
    | Delete(channel: nat)
    | Restore(channel: nat)
    | Reenqueue(pair: Pair, serial: nat)
    | Start(command: Command)
    | Operate(pair: Pair)
    | Commit(pair: Pair)
    | Abort(pair: Pair)
    | DeadLetter(pair: Pair)
    | ManualRetry(command: Command)

  predicate Live(s: State, channel: nat) {
    channel in s.channels && !s.channels[channel].deleted
  }

  /** The unique constraint on slugs, over deleted channels too. */
  predicate SlugUnused(s: State, slug: Key) {
    forall c :: c in s.channels ==> s.channels[c].slug != slug
  }

  /** Taking a pair's row lock waits for the worker that holds it. */
  predicate Unlocked(s: State, pairs: set<Pair>) {
    forall p :: p in pairs ==> p !in s.jobs
  }

  predicate Enabled(s: State, a: Step) {
    match a
    case Create(channel, user, slug) => channel !in s.channels && SlugUnused(s, slug) && Pair(channel, user) !in s.jobs
    case SetRole(pair, _) => Live(s, pair.channel) && pair !in s.jobs
    case Remove(pair) => Live(s, pair.channel) && pair !in s.jobs
    case Rename(channel, slug) => Live(s, channel) && SlugUnused(s, slug) && Unlocked(s, ApprovedPairs(s, channel))
    case Delete(channel) => Live(s, channel) && Unlocked(s, ApprovedPairs(s, channel))
    case Restore(channel) => channel in s.channels && s.channels[channel].deleted && Unlocked(s, ApprovedPairs(s, channel))
    case Reenqueue(pair, serial) =>
      && pair.channel in s.channels && pair !in s.jobs
      && (if pair in s.projections then
            var c := Command(pair, s.projections[pair].generation, serial); c !in s.open && c !in s.done
          else pair in s.roles)
    case Start(command) =>
      && command in s.open && command !in s.dead
      && command.pair in s.projections && command.pair.channel in s.channels && command.pair !in s.jobs
    case Operate(pair) => pair in s.jobs && s.jobs[pair].todo != []
    case Commit(pair) => pair in s.jobs && s.jobs[pair].todo == [] && pair in s.projections
    case Abort(pair) => pair in s.jobs
    case DeadLetter(pair) => pair in s.jobs
    case ManualRetry(command) => command in s.done || command in s.dead
  }

  /** Delete and restore differ only in the flag they leave. */
  function SetDeleted(s: State, channel: nat, deleted: bool): State
    requires channel in s.channels
  {
    var s1 := s.(channels := s.channels[channel := s.channels[channel].(deleted := deleted)]);
    Bumped(s1, ApprovedPairs(s1, channel))
  }

  function Begin(s: State, c: Command): State
    requires Enabled(s, Start(c))
  {
    if c.generation == s.projections[c.pair].generation then
      s.(jobs := s.jobs[c.pair := StartJob(s, c)])
    else
      s.(open := s.open - {c}, done := s.done + {c})
  }

  function Finish(s: State, p: Pair): State
    requires Enabled(s, Commit(p))
  {
    var job := s.jobs[p];
    s.(projections := s.projections[p := Reconciled(s.projections[p], job)],
       open := s.open - {job.command},
       done := s.done + {job.command},
       jobs := s.jobs - {p})
  }

  function Apply(s: State, a: Step): State
    requires Enabled(s, a)
  {
    match a
    case Create(channel, user, slug) =>
      var p := Pair(channel, user);
      Bumped(s.(channels := s.channels[channel := Channel(slug, false)], roles := s.roles[p := Owner]), {p})
    case SetRole(pair, role) => Bumped(s.(roles := s.roles[pair := role]), {pair})
    case Remove(pair) => Bumped(s.(roles := s.roles - {pair}), {pair})
    case Rename(channel, slug) =>
      var s1 := s.(channels := s.channels[channel := s.channels[channel].(slug := slug)]);
      Bumped(s1, ApprovedPairs(s1, channel))
    case Delete(channel) => SetDeleted(s, channel, true)
    case Restore(channel) => SetDeleted(s, channel, false)
    case Reenqueue(pair, serial) =>
      if pair in s.projections then s.(open := s.open + {Command(pair, s.projections[pair].generation, serial)})
      else Bumped(s, {pair})
    case Start(command) => Begin(s, command)
    case Operate(pair) =>
      var job := s.jobs[pair];
      s.(bound := Perform(s.bound, pair.user, job.todo[0]), jobs := s.jobs[pair := job.(todo := job.todo[1..])])
    case Commit(pair) => Finish(s, pair)
    case Abort(pair) => s.(jobs := s.jobs - {pair})
    case DeadLetter(pair) => s.(jobs := s.jobs - {pair}, dead := s.dead + {s.jobs[pair].command})
    case ManualRetry(command) => s.(open := s.open + {command}, dead := s.dead - {command}, done := s.done - {command})
  }

  // ----- which key belongs to which channel -----

  /** No other channel's projection or running worker still refers to the slug. */
  predicate SlugFree(s: State, channel: nat, slug: Key) {
    && (forall p :: p in s.projections && p.channel != channel ==> slug !in s.projections[p].keys)
    && (forall p :: p in s.jobs && p.channel != channel ==> slug !in s.jobs[p].known)
  }

  predicate Guarded(s: State, a: Step) {
    match a
    case Create(channel, _, slug) => SlugFree(s, channel, slug)
    case Rename(channel, slug) => SlugFree(s, channel, slug)
    case _ => true
  }

  type Owners = map<Key, nat>

  predicate Owns(owner: Owners, channel: nat, k: Key) { k in owner && owner[k] == channel }

  predicate OwnsAll(owner: Owners, channel: nat, keys: seq<Key>) {
    forall k :: k in keys ==> Owns(owner, channel, k)
  }

  // ----- the invariant -----

  predicate ChannelsOk(s: State, owner: Owners) {
    && (forall c :: c in s.channels ==> Owns(owner, c, s.channels[c].slug))
    && (forall p :: p in s.roles ==> p.channel in s.channels)
    && (forall p :: p in s.projections ==> p.channel in s.channels)
  }

  predicate RowOk(s: State, owner: Owners, p: Pair, row: Projection)
    requires p.channel in s.channels
  {
    && row.reconciled <= row.generation
    && row.desiredKey in row.keys
    && OwnsAll(owner, p.channel, row.keys)
    && row.desiredBound == Entitled(s, p)
    && (IsApproved(s, p) ==> row.desiredKey == s.channels[p.channel].slug)
  }

  predicate RowsOk(s: State, owner: Owners)
    requires ChannelsOk(s, owner)
  {
    && (forall p :: p in s.roles && Approved(s.roles[p]) ==> p in s.projections)
    && (forall p :: p in s.projections ==> RowOk(s, owner, p, s.projections[p]))
  }

  predicate CommandsOk(s: State) {
    && (forall c :: c in s.open + s.done ==> c.pair in s.projections && c.generation <= s.projections[c.pair].generation)
    && s.open !! s.done
    && s.dead <= s.open
  }

  /** Every bound key is recorded in the row of its channel and user. */
  predicate BoundRecorded(s: State, owner: Owners) {
    forall b :: b in s.bound ==>
      && b.1 in owner
      && Pair(owner[b.1], b.0) in s.projections
      && b.1 in s.projections[Pair(owner[b.1], b.0)].keys
  }

  /** A pair's own keys are bound exactly as its entitlement says. */
  predicate Exact(s: State, p: Pair)
    requires p in s.projections && p.channel in s.channels
  {
    && (forall k :: k in s.projections[p].keys && (p.user, k) in s.bound ==> Entitled(s, p) && k == s.channels[p.channel].slug)
    && (Entitled(s, p) ==> (p.user, s.channels[p.channel].slug) in s.bound)
  }

  predicate UpToDate(s: State, p: Pair)
    requires p in s.projections
  {
    s.projections[p].reconciled == s.projections[p].generation
  }

  predicate ExactWhenReconciled(s: State)
    requires forall p :: p in s.projections ==> p.channel in s.channels
  {
    forall p :: p in s.projections && UpToDate(s, p) ==> Exact(s, p)
  }

  predicate HasOpenCommand(s: State, p: Pair)
    requires p in s.projections
  {
    exists c :: c in s.open && c.pair == p && c.generation == s.projections[p].generation
  }

  predicate WorkRemains(s: State) {
    forall p :: p in s.projections && !UpToDate(s, p) ==> HasOpenCommand(s, p)
  }

  /** A running worker's plan still covers every key that has to go or to come. */
  predicate PlanOk(bound: set<(nat, Key)>, user: nat, job: Job) {
    && job.key in job.known
    && (forall op :: op in job.todo ==> if op.Bind? then job.bind && op.key == job.key
                                        else op.key in job.known && !(job.bind && op.key == job.key))
    && (forall k :: k in job.known && !(job.bind && k == job.key) && (user, k) in bound ==> Unbind(k) in job.todo)
    && (job.bind && (user, job.key) !in bound ==> Bind(job.key) in job.todo)
  }

  predicate JobOk(s: State, owner: Owners, p: Pair, job: Job)
    requires p in s.projections && p.channel in s.channels
  {
    && job.command.pair == p && job.command in s.open && job.command !in s.dead
    && job.command.generation == s.projections[p].generation
    && job.bind == Entitled(s, p)
    && (job.bind ==> job.key == s.channels[p.channel].slug)
    && (IsApproved(s, p) ==> job.key == s.channels[p.channel].slug)
    && OwnsAll(owner, p.channel, job.known)
    && (forall k :: k in s.projections[p].keys ==> k in job.known)
    && (forall k :: k in job.known ==> k == job.key || k in s.projections[p].keys)
    && PlanOk(s.bound, p.user, job)
  }

  predicate JobsOk(s: State, owner: Owners)
    requires ChannelsOk(s, owner)
  {
    forall p :: p in s.jobs ==> p in s.projections && JobOk(s, owner, p, s.jobs[p])
  }

  predicate Invariant(s: State, owner: Owners) {
    && ChannelsOk(s, owner)
    && RowsOk(s, owner)
    && CommandsOk(s)
    && BoundRecorded(s, owner)
    && ExactWhenReconciled(s)
    && WorkRemains(s)
    && JobsOk(s, owner)
  }

  // ----- bumping -----

  predicate RowKept(owner: Owners, p: Pair, row: Projection) {
    row.reconciled <= row.generation && row.desiredKey in row.keys && OwnsAll(owner, p.channel, row.keys)
  }

  /** What a transaction leaves true before it bumps `pairs`: only those pairs may be wrong. */
  predicate Bumpable(s: State, owner: Owners, pairs: set<Pair>) {
    && ChannelsOk(s, owner)
    && (forall p :: p in pairs ==> p.channel in s.channels && p !in s.jobs)
    && (forall p :: p in s.roles && Approved(s.roles[p]) ==> p in s.projections || p in pairs)
    && (forall p :: p in s.projections ==> RowKept(owner, p, s.projections[p]))
    && (forall p :: p in s.projections && p !in pairs ==> RowOk(s, owner, p, s.projections[p]))
    && CommandsOk(s)
    && BoundRecorded(s, owner)
    && (forall p :: p in s.projections && p !in pairs && UpToDate(s, p) ==> Exact(s, p))
    && WorkRemains(s)
    && JobsOk(s, owner)
  }

  lemma BumpedRow(s: State, owner: Owners, p: Pair)
    requires ChannelsOk(s, owner) && p.channel in s.channels
    requires p in s.projections ==> RowKept(owner, p, s.projections[p])
    ensures RowOk(s, owner, p, Bump(s, p)) && Bump(s, p).reconciled < Bump(s, p).generation
    ensures p in s.projections ==> Bump(s, p).generation == s.projections[p].generation + 1
    ensures p in s.projections ==> forall k :: k in s.projections[p].keys ==> k in Bump(s, p).keys
  {
  }

  lemma BumpedCommands(s: State, owner: Owners, pairs: set<Pair>)
    requires Bumpable(s, owner, pairs)
    ensures CommandsOk(Bumped(s, pairs)) && WorkRemains(Bumped(s, pairs))
  {
    hide RowOk, RowKept, JobsOk, BoundRecorded, Exact, Entitled;
    var s' := Bumped(s, pairs);
    forall p | p in pairs
      ensures Bump(s, p).generation == if p in s.projections then s.projections[p].generation + 1 else 1
    {
    }
    forall c | c in s'.open + s'.done
      ensures c.pair in s'.projections && c.generation <= s'.projections[c.pair].generation
    {
    }
    forall p | p in s'.projections && !UpToDate(s', p)
      ensures HasOpenCommand(s', p)
    {
      if p in pairs {
        assert Command(p, Bump(s, p).generation, 0) in s'.open;
      } else {
        assert HasOpenCommand(s, p);
      }
    }
  }

  lemma BumpedRows(s: State, owner: Owners, pairs: set<Pair>)
    requires Bumpable(s, owner, pairs)
    ensures ChannelsOk(Bumped(s, pairs), owner) && RowsOk(Bumped(s, pairs), owner)
  {
    hide WorkRemains, JobsOk, Exact, BoundRecorded, Bump;
    var s' := Bumped(s, pairs);
    forall p | p in s'.projections
      ensures RowOk(s', owner, p, s'.projections[p])
    {
      if p in pairs {
        BumpedRow(s, owner, p);
      }
    }
  }

  lemma BumpedBindings(s: State, owner: Owners, pairs: set<Pair>)
    requires Bumpable(s, owner, pairs)
    ensures ChannelsOk(Bumped(s, pairs), owner) && BoundRecorded(Bumped(s, pairs), owner) && ExactWhenReconciled(Bumped(s, pairs))
  {
    hide WorkRemains, JobsOk, Bump, RowOk, RowKept;
    var s' := Bumped(s, pairs);
    forall p | p in pairs
      ensures Bump(s, p).reconciled < Bump(s, p).generation
      ensures p in s.projections ==> forall k :: k in s.projections[p].keys ==> k in Bump(s, p).keys
    {
      BumpedRow(s, owner, p);
    }
    forall p | p in s'.projections && UpToDate(s', p)
      ensures Exact(s', p)
    {
      assert p !in pairs;
      assert Exact(s, p);
    }
  }

  lemma BumpedJobs(s: State, owner: Owners, pairs: set<Pair>)
    requires Bumpable(s, owner, pairs)
    ensures ChannelsOk(Bumped(s, pairs), owner) && JobsOk(Bumped(s, pairs), owner)
  {
    hide WorkRemains, RowOk, RowKept, BoundRecorded, Exact, PlanOk, Bump;
    var s' := Bumped(s, pairs);
    forall p | p in s'.jobs
      ensures p in s'.projections && JobOk(s', owner, p, s'.jobs[p])
    {
      assert p !in pairs;
      assert JobOk(s, owner, p, s.jobs[p]);
    }
  }

  lemma BumpedKeepsInvariant(s: State, owner: Owners, pairs: set<Pair>)
    requires Bumpable(s, owner, pairs)
    ensures Invariant(Bumped(s, pairs), owner)
  {
    hide Bumpable, Bumped, ChannelsOk, RowsOk, CommandsOk, BoundRecorded, ExactWhenReconciled, WorkRemains, JobsOk;
    BumpedCommands(s, owner, pairs);
    BumpedRows(s, owner, pairs);
    BumpedBindings(s, owner, pairs);
    BumpedJobs(s, owner, pairs);
  }

  // ----- transactions -----

  /** The pair's entitlement and key are as they were, or it had none and still has none. */
  predicate Undisturbed(s: State, s1: State, p: Pair) {
    && p.channel in s.channels && p.channel in s1.channels
    && ((IsApproved(s, p) == IsApproved(s1, p) && s.channels[p.channel] == s1.channels[p.channel])
        || (!IsApproved(s, p) && !IsApproved(s1, p)))
  }

  lemma RowCarries(s: State, s1: State, owner: Owners, owner1: Owners, p: Pair)
    requires p in s.projections && Undisturbed(s, s1, p) && s1.projections == s.projections && s1.bound == s.bound
    requires RowOk(s, owner, p, s.projections[p]) && OwnsAll(owner1, p.channel, s.projections[p].keys)
    ensures RowOk(s1, owner1, p, s.projections[p]) && (Exact(s, p) ==> Exact(s1, p))
  {
    hide OwnsAll;
  }

  lemma JobCarries(s: State, s1: State, owner: Owners, owner1: Owners, p: Pair, job: Job)
    requires p in s.projections && Undisturbed(s, s1, p)
    requires s1.projections == s.projections && s1.bound == s.bound && s1.open == s.open && s1.dead == s.dead
    requires JobOk(s, owner, p, job) && OwnsAll(owner1, p.channel, job.known)
    ensures JobOk(s1, owner1, p, job)
  {
    hide OwnsAll, PlanOk;
  }

  lemma BoundDependsOn(s: State, s1: State, owner: Owners)
    requires BoundRecorded(s, owner) && s1.projections == s.projections && s1.bound == s.bound
    ensures BoundRecorded(s1, owner)
  {
  }

  lemma WorkDependsOn(s: State, s1: State)
    requires WorkRemains(s) && s1.projections == s.projections && s.open <= s1.open
    ensures WorkRemains(s1)
  {
    forall p | p in s1.projections && !UpToDate(s1, p)
      ensures HasOpenCommand(s1, p)
    {
      assert HasOpenCommand(s, p);
    }
  }

  predicate SameTables(s: State, s1: State) {
    s1.channels == s.channels && s1.roles == s.roles && s1.projections == s.projections
  }

  lemma RowsDependOn(s: State, s1: State, owner: Owners)
    requires ChannelsOk(s, owner) && RowsOk(s, owner) && SameTables(s, s1)
    ensures ChannelsOk(s1, owner) && RowsOk(s1, owner)
  {
    hide OwnsAll;
    forall p | p in s1.projections
      ensures RowOk(s1, owner, p, s1.projections[p])
    {
      assert RowOk(s, owner, p, s.projections[p]);
    }
  }

  lemma ExactDependsOn(s: State, s1: State, owner: Owners)
    requires ChannelsOk(s, owner) && ExactWhenReconciled(s) && SameTables(s, s1) && s1.bound == s.bound
    ensures ChannelsOk(s1, owner) && ExactWhenReconciled(s1)
  {
    forall p | p in s1.projections && UpToDate(s1, p)
      ensures Exact(s1, p)
    {
      assert Exact(s, p);
    }
  }

  /** Steps that touch neither the tables nor the broker keep everything but the work list. */
  lemma TablesCarry(s: State, s1: State, owner: Owners)
    requires Invariant(s, owner) && SameTables(s, s1) && s1.bound == s.bound
    ensures ChannelsOk(s1, owner) && RowsOk(s1, owner) && BoundRecorded(s1, owner) && ExactWhenReconciled(s1)
  {
    hide ChannelsOk, RowsOk, CommandsOk, BoundRecorded, ExactWhenReconciled, WorkRemains, JobsOk;
    RowsDependOn(s, s1, owner);
    ExactDependsOn(s, s1, owner);
    BoundDependsOn(s, s1, owner);
  }

  lemma JobDependsOn(s: State, s1: State, owner: Owners, p: Pair, job: Job)
    requires p in s.projections && p.channel in s.channels && JobOk(s, owner, p, job)
    requires SameTables(s, s1) && s1.bound == s.bound && job.command in s1.open && job.command !in s1.dead
    ensures JobOk(s1, owner, p, job)
  {
    hide OwnsAll, PlanOk;
  }

  predicate KeysOwned(s: State, owner: Owners) {
    && (forall p :: p in s.projections ==> OwnsAll(owner, p.channel, s.projections[p].keys))
    && (forall p :: p in s.jobs ==> OwnsAll(owner, p.channel, s.jobs[p].known))
    && BoundRecorded(s, owner)
  }

  lemma InvariantOwnsKeys(s: State, owner: Owners)
    requires Invariant(s, owner)
    ensures KeysOwned(s, owner)
  {
    hide OwnsAll, PlanOk, Exact, HasOpenCommand;
    forall p | p in s.projections
      ensures OwnsAll(owner, p.channel, s.projections[p].keys)
    {
      assert RowOk(s, owner, p, s.projections[p]);
    }
    forall p | p in s.jobs
      ensures OwnsAll(owner, p.channel, s.jobs[p].known)
    {
      assert JobOk(s, owner, p, s.jobs[p]);
    }
  }

  /** A transaction that changes channels and roles, and disturbs only the pairs it bumps. */
  predicate Disturbs(s: State, s1: State, pairs: set<Pair>) {
    && s1 == s.(channels := s1.channels, roles := s1.roles)
    && (forall p :: p in pairs ==> p.channel in s1.channels && p !in s.jobs)
    && (forall p :: p in s1.roles && Approved(s1.roles[p]) ==> p in s.projections || p in pairs)
    && (forall p :: p in s.projections && p !in pairs ==> Undisturbed(s, s1, p))
  }

  lemma ChangeBumpable(s: State, s1: State, owner: Owners, owner1: Owners, pairs: set<Pair>)
    requires Invariant(s, owner) && Disturbs(s, s1, pairs) && ChannelsOk(s1, owner1) && KeysOwned(s, owner1)
    ensures Bumpable(s1, owner1, pairs)
  {
    hide OwnsAll, PlanOk, Exact, HasOpenCommand, BoundRecorded, Undisturbed;
    forall p | p in s1.projections
      ensures RowKept(owner1, p, s1.projections[p])
      ensures p !in pairs ==> RowOk(s1, owner1, p, s1.projections[p]) && (UpToDate(s1, p) ==> Exact(s1, p))
    {
      assert RowOk(s, owner, p, s.projections[p]);
      if p !in pairs {
        RowCarries(s, s1, owner, owner1, p);
      }
    }
    forall p | p in s1.jobs
      ensures JobOk(s1, owner1, p, s1.jobs[p])
    {
      JobCarries(s, s1, owner, owner1, p, s.jobs[p]);
    }
    BoundDependsOn(s, s1, owner1);
    WorkDependsOn(s, s1);
  }

  lemma ChangeKeepsInvariant(s: State, s1: State, owner: Owners, owner1: Owners, pairs: set<Pair>)
    requires Invariant(s, owner) && Disturbs(s, s1, pairs) && ChannelsOk(s1, owner1) && KeysOwned(s, owner1)
    ensures (forall p :: p in pairs ==> p.channel in s1.channels) && Invariant(Bumped(s1, pairs), owner1)
  {
    ChangeBumpable(s, s1, owner, owner1, pairs);
    BumpedKeepsInvariant(s1, owner1, pairs);
  }

  /** Giving the slug to the channel takes no key away from another channel. */
  lemma OwnershipMoves(s: State, owner: Owners, channel: nat, slug: Key)
    requires Invariant(s, owner) && SlugUnused(s, slug) && SlugFree(s, channel, slug)
    ensures (forall c :: c in s.channels ==> Owns(owner[slug := channel], c, s.channels[c].slug))
    ensures KeysOwned(s, owner[slug := channel])
  {
    hide RowOk, JobOk, Exact, HasOpenCommand;
    var owner' := owner[slug := channel];
    InvariantOwnsKeys(s, owner);
    forall p, k | p in s.projections && k in s.projections[p].keys
      ensures Owns(owner', p.channel, k)
    {
      assert Owns(owner, p.channel, k);
    }
    forall p, k | p in s.jobs && k in s.jobs[p].known
      ensures Owns(owner', p.channel, k)
    {
      assert Owns(owner, p.channel, k);
    }
    forall b | b in s.bound
      ensures b.1 in owner' && Pair(owner'[b.1], b.0) in s.projections && b.1 in s.projections[Pair(owner'[b.1], b.0)].keys
    {
      var p := Pair(owner[b.1], b.0);
      assert p in s.projections && b.1 in s.projections[p].keys;
    }
  }

  lemma RoleChangeKeepsInvariant(s: State, owner: Owners, p: Pair, roles: map<Pair, Role>)
    requires Invariant(s, owner) && p.channel in s.channels && p !in s.jobs
    requires forall q :: q != p ==> (q in roles <==> q in s.roles) && (q in s.roles ==> roles[q] == s.roles[q])
    ensures Invariant(Bumped(s.(roles := roles), {p}), owner)
  {
    hide RowOk, JobsOk, CommandsOk, BoundRecorded, WorkRemains, Exact, KeysOwned, Bumped;
    InvariantOwnsKeys(s, owner);
    ChangeKeepsInvariant(s, s.(roles := roles), owner, owner, {p});
  }

  lemma ChannelChangeKeepsInvariant(s: State, owner: Owners, channel: nat, c: Channel, owner1: Owners)
    requires Invariant(s, owner) && channel in s.channels && Unlocked(s, ApprovedPairs(s, channel))
    requires KeysOwned(s, owner1) && Owns(owner1, channel, c.slug)
    requires forall d :: d in s.channels && d != channel ==> Owns(owner1, d, s.channels[d].slug)
    ensures var s1 := s.(channels := s.channels[channel := c]);
            Invariant(Bumped(s1, ApprovedPairs(s1, channel)), owner1)
  {
    hide RowOk, JobsOk, CommandsOk, BoundRecorded, WorkRemains, Exact, KeysOwned, Bumped;
    var s1 := s.(channels := s.channels[channel := c]);
    assert ApprovedPairs(s1, channel) == ApprovedPairs(s, channel);
    ChangeKeepsInvariant(s, s1, owner, owner1, ApprovedPairs(s1, channel));
  }

  lemma CreateKeepsInvariant(s: State, owner: Owners, channel: nat, user: nat, slug: Key)
    requires Invariant(s, owner) && Enabled(s, Create(channel, user, slug)) && SlugFree(s, channel, slug)
    ensures Invariant(Apply(s, Create(channel, user, slug)), owner[slug := channel])
  {
    hide RowOk, JobsOk, CommandsOk, BoundRecorded, WorkRemains, Exact, KeysOwned, Bumped, SlugFree;
    var p := Pair(channel, user);
    var s1 := s.(channels := s.channels[channel := Channel(slug, false)], roles := s.roles[p := Owner]);
    OwnershipMoves(s, owner, channel, slug);
    ChangeKeepsInvariant(s, s1, owner, owner[slug := channel], {p});
  }

  lemma ReenqueueKeepsInvariant(s: State, owner: Owners, p: Pair, serial: nat)
    requires Invariant(s, owner) && Enabled(s, Reenqueue(p, serial))
    ensures Invariant(Apply(s, Reenqueue(p, serial)), owner)
  {
    hide RowOk, PlanOk, BoundRecorded, HasOpenCommand, Exact, Bumped, OwnsAll, Entitled, IsApproved;
    if p in s.projections {
      var c := Command(p, s.projections[p].generation, serial);
      assert s.done - {c} == s.done && s.dead - {c} == s.dead;
      SnapshotKeepsInvariant(s, owner, c);
    } else {
      assert s.(roles := s.roles) == s;
      RoleChangeKeepsInvariant(s, owner, p, s.roles);
    }
  }

  /** One more open row never hurts, whether newly inserted or reopened by hand. */
  lemma SnapshotKeepsInvariant(s: State, owner: Owners, c: Command)
    requires Invariant(s, owner) && c.pair in s.projections && c.generation <= s.projections[c.pair].generation
    ensures Invariant(s.(open := s.open + {c}, dead := s.dead - {c}, done := s.done - {c}), owner)
  {
    hide BoundRecorded, JobOk, RowsOk, Exact, HasOpenCommand;
    var s1 := s.(open := s.open + {c}, dead := s.dead - {c}, done := s.done - {c});
    TablesCarry(s, s1, owner);
    WorkDependsOn(s, s1);
    forall p | p in s1.jobs
      ensures JobOk(s1, owner, p, s1.jobs[p])
    {
      JobCommandOpen(s, owner, p, s.jobs[p]);
      JobDependsOn(s, s1, owner, p, s.jobs[p]);
    }
  }

  // ----- worker steps -----

  lemma DistinctMembers(keys: seq<Key>)
    ensures forall k :: k in Distinct(keys) <==> k in keys
  {
    if keys != [] {
      DistinctMembers(keys[..|keys| - 1]);
      assert keys == keys[..|keys| - 1] + [keys[|keys| - 1]];
    }
  }

  lemma UnbindsMembers(keys: seq<Key>)
    ensures forall op :: op in Unbinds(keys) <==> op.Unbind? && op.key in keys
  {
    if keys != [] {
      UnbindsMembers(keys[1..]);
      assert keys == [keys[0]] + keys[1..];
    }
  }

  lemma WithoutMembers(keys: seq<Key>, k: Key)
    ensures forall j :: j in Without(keys, k) <==> j in keys && j != k
  {
    if keys != [] {
      WithoutMembers(keys[1..], k);
      assert keys == [keys[0]] + keys[1..];
    }
  }

  lemma PlanMembers(known: seq<Key>, key: Key, bind: bool)
    ensures forall op :: op in Plan(known, key, bind) <==>
              if op.Bind? then bind && op.key == key else op.key in known && !(bind && op.key == key)
  {
    WithoutMembers(known, key);
    UnbindsMembers(Without(known, key));
    UnbindsMembers(known);
  }

  lemma StartedJobOk(s: State, owner: Owners, c: Command)
    requires Invariant(s, owner) && c in s.open && c !in s.dead && c.generation == s.projections[c.pair].generation
    ensures JobOk(s, owner, c.pair, StartJob(s, c))
  {
    hide BoundRecorded, Exact, HasOpenCommand, JobsOk, Distinct, Plan;
    var p := c.pair;
    var row, job := s.projections[p], StartJob(s, c);
    assert RowOk(s, owner, p, row);
    DistinctMembers(row.keys + [row.desiredKey, s.channels[p.channel].slug]);
    PlanMembers(job.known, job.key, job.bind);
  }

  lemma JobStartKeepsInvariant(s: State, owner: Owners, c: Command)
    requires Invariant(s, owner) && Enabled(s, Start(c)) && c.generation == s.projections[c.pair].generation
    ensures Invariant(s.(jobs := s.jobs[c.pair := StartJob(s, c)]), owner)
  {
    hide BoundRecorded, StartJob, JobOk, RowsOk, Exact, HasOpenCommand;
    var s1 := s.(jobs := s.jobs[c.pair := StartJob(s, c)]);
    TablesCarry(s, s1, owner);
    WorkDependsOn(s, s1);
    StartedJobOk(s, owner, c);
    forall p | p in s1.jobs
      ensures JobOk(s1, owner, p, s1.jobs[p])
    {
      JobCommandOpen(s, owner, p, s1.jobs[p]);
      JobDependsOn(s, s1, owner, p, s1.jobs[p]);
    }
  }

  lemma JobCommandOpen(s: State, owner: Owners, p: Pair, job: Job)
    requires p in s.projections && p.channel in s.channels && JobOk(s, owner, p, job)
    ensures job.command in s.open && job.command !in s.dead
    ensures job.command.pair == p && job.command.generation == s.projections[p].generation
  {
  }

  lemma StaleCommandKeepsInvariant(s: State, owner: Owners, c: Command)
    requires Invariant(s, owner) && Enabled(s, Start(c)) && c.generation != s.projections[c.pair].generation
    ensures Invariant(s.(open := s.open - {c}, done := s.done + {c}), owner)
  {
    hide BoundRecorded, JobOk, RowsOk, Exact;
    var s1 := s.(open := s.open - {c}, done := s.done + {c});
    TablesCarry(s, s1, owner);
    forall p | p in s1.projections && !UpToDate(s1, p)
      ensures HasOpenCommand(s1, p)
    {
      assert HasOpenCommand(s, p);
      var d :| d in s.open && d.pair == p && d.generation == s.projections[p].generation;
      assert d in s1.open;
    }
    forall p | p in s1.jobs
      ensures JobOk(s1, owner, p, s1.jobs[p])
    {
      JobCommandOpen(s, owner, p, s.jobs[p]);
      JobDependsOn(s, s1, owner, p, s.jobs[p]);
    }
  }

  /** One broker operation of the pair's worker, seen from the binding sets. */
  lemma OperationStaysHome(s: State, owner: Owners, p: Pair)
    requires Invariant(s, owner) && Enabled(s, Operate(p))
    ensures var op := s.jobs[p].todo[0];
            && Owns(owner, p.channel, op.key)
            && (op.Bind? ==> Entitled(s, p) && op.key == s.channels[p.channel].slug && op.key in s.projections[p].keys)
            && (op.Unbind? && Entitled(s, p) ==> op.key != s.channels[p.channel].slug)
  {
    hide BoundRecorded, Exact, HasOpenCommand;
    var job := s.jobs[p];
    assert JobOk(s, owner, p, job) && RowOk(s, owner, p, s.projections[p]);
    assert job.todo[0] in job.todo;
  }

  lemma OperatedPlanOk(bound: set<(nat, Key)>, user: nat, job: Job)
    requires PlanOk(bound, user, job) && job.todo != []
    ensures PlanOk(Perform(bound, user, job.todo[0]), user, job.(todo := job.todo[1..]))
  {
    assert job.todo == [job.todo[0]] + job.todo[1..];
  }

  lemma OtherPlanOk(bound: set<(nat, Key)>, user: nat, op: BrokerOp, other: nat, job: Job)
    requires PlanOk(bound, other, job) && (user == other ==> op.key !in job.known)
    ensures PlanOk(Perform(bound, user, op), other, job)
  {
  }

  lemma OperateKeepsJobs(s: State, owner: Owners, p: Pair)
    requires Invariant(s, owner) && Enabled(s, Operate(p))
    ensures ChannelsOk(Apply(s, Operate(p)), owner) && JobsOk(Apply(s, Operate(p)), owner)
  {
    hide BoundRecorded, Exact, HasOpenCommand, PlanOk, RowOk, Perform;
    var s1, op := Apply(s, Operate(p)), s.jobs[p].todo[0];
    OperationStaysHome(s, owner, p);
    forall q | q in s1.jobs
      ensures JobOk(s1, owner, q, s1.jobs[q])
    {
      var job := s.jobs[q];
      assert JobOk(s, owner, q, job);
      if q == p {
        OperatedPlanOk(s.bound, p.user, job);
      } else {
        assert q.user == p.user ==> q.channel != p.channel;
        OtherPlanOk(s.bound, p.user, op, q.user, job);
      }
    }
  }

  lemma OperateKeepsBindings(s: State, owner: Owners, p: Pair)
    requires Invariant(s, owner) && Enabled(s, Operate(p))
    ensures var s1 := Apply(s, Operate(p));
            ChannelsOk(s1, owner) && BoundRecorded(s1, owner) && ExactWhenReconciled(s1)
  {
    hide HasOpenCommand, JobOk, RowsOk;
    var s1, op := Apply(s, Operate(p)), s.jobs[p].todo[0];
    OperationStaysHome(s, owner, p);
    InvariantOwnsKeys(s, owner);
    forall q | q in s1.projections && UpToDate(s1, q)
      ensures Exact(s1, q)
    {
      assert Exact(s, q);
      assert q != p && q.user == p.user ==> q.channel != p.channel && op.key !in s.projections[q].keys;
    }
  }

  lemma OperateKeepsRows(s: State, owner: Owners, p: Pair)
    requires Invariant(s, owner) && Enabled(s, Operate(p))
    ensures var s1 := Apply(s, Operate(p));
            ChannelsOk(s1, owner) && RowsOk(s1, owner) && CommandsOk(s1) && WorkRemains(s1)
  {
    hide JobsOk, RowsOk, ChannelsOk, ExactWhenReconciled, BoundRecorded, HasOpenCommand;
    var s1 := Apply(s, Operate(p));
    RowsDependOn(s, s1, owner);
    WorkDependsOn(s, s1);
  }

  lemma OperateKeepsInvariant(s: State, owner: Owners, p: Pair)
    requires Invariant(s, owner) && Enabled(s, Operate(p))
    ensures Invariant(Apply(s, Operate(p)), owner)
  {
    hide ChannelsOk, RowsOk, CommandsOk, BoundRecorded, ExactWhenReconciled, WorkRemains, JobsOk, Apply;
    OperateKeepsRows(s, owner, p);
    OperateKeepsBindings(s, owner, p);
    OperateKeepsJobs(s, owner, p);
  }

  /** When the plan is used up, the only key of the channel still bound is the wanted one. */
  lemma FinishedPlan(s: State, owner: Owners, p: Pair)
    requires Invariant(s, owner) && Enabled(s, Commit(p))
    ensures var job := s.jobs[p];
            && Owns(owner, p.channel, job.key)
            && (forall k :: Owns(owner, p.channel, k) && (p.user, k) in s.bound ==> job.bind && k == job.key)
            && (job.bind ==> (p.user, job.key) in s.bound)
  {
    hide HasOpenCommand, Exact;
    var job := s.jobs[p];
    assert JobOk(s, owner, p, job);
    forall k: Key | Owns(owner, p.channel, k) && (p.user, k) in s.bound
      ensures job.bind && k == job.key
    {
      var b := (p.user, k);
      assert b in s.bound && Pair(owner[b.1], b.0) == p;
      assert k in s.projections[p].keys && k in job.known;
    }
  }

  lemma FinishKeepsBindings(s: State, owner: Owners, p: Pair)
    requires Invariant(s, owner) && Enabled(s, Commit(p))
    ensures var s1 := Finish(s, p);
            ChannelsOk(s1, owner) && BoundRecorded(s1, owner) && ExactWhenReconciled(s1)
  {
    hide HasOpenCommand, PlanOk, RowsOk, OwnsAll, CommandsOk;
    var s1, job := Finish(s, p), s.jobs[p];
    FinishedPlan(s, owner, p);
    assert JobOk(s, owner, p, job);
    forall q | q in s1.projections && UpToDate(s1, q)
      ensures Exact(s1, q)
    {
      assert q != p ==> Exact(s, q);
    }
  }

  lemma ReconciledRowOk(s: State, owner: Owners, p: Pair)
    requires Invariant(s, owner) && Enabled(s, Commit(p))
    ensures RowOk(s, owner, p, Reconciled(s.projections[p], s.jobs[p]))
  {
    hide HasOpenCommand, PlanOk, BoundRecorded, ExactWhenReconciled, CommandsOk, RowsOk;
    FinishedPlan(s, owner, p);
    assert JobOk(s, owner, p, s.jobs[p]);
  }

  lemma FinishKeepsRows(s: State, owner: Owners, p: Pair)
    requires Invariant(s, owner) && Enabled(s, Commit(p))
    ensures ChannelsOk(Finish(s, p), owner) && RowsOk(Finish(s, p), owner)
  {
    hide HasOpenCommand, JobsOk, BoundRecorded, ExactWhenReconciled, CommandsOk, Reconciled, OwnsAll;
    var s1 := Finish(s, p);
    ReconciledRowOk(s, owner, p);
    forall q | q in s1.projections
      ensures RowOk(s1, owner, q, s1.projections[q])
    {
      assert RowOk(s, owner, q, s.projections[q]);
    }
  }

  lemma FinishKeepsCommands(s: State, owner: Owners, p: Pair)
    requires Invariant(s, owner) && Enabled(s, Commit(p))
    ensures CommandsOk(Finish(s, p))
  {
    hide HasOpenCommand, JobOk, BoundRecorded, ExactWhenReconciled, RowsOk;
    JobCommandOpen(s, owner, p, s.jobs[p]);
  }

  lemma FinishKeepsJobs(s: State, owner: Owners, p: Pair)
    requires Invariant(s, owner) && Enabled(s, Commit(p))
    ensures ChannelsOk(Finish(s, p), owner) && JobsOk(Finish(s, p), owner)
  {
    hide BoundRecorded, ExactWhenReconciled, RowsOk, PlanOk, OwnsAll, WorkRemains;
    var s1, job := Finish(s, p), s.jobs[p];
    JobCommandOpen(s, owner, p, job);
    forall q | q in s1.jobs
      ensures JobOk(s1, owner, q, s1.jobs[q])
    {
      assert JobOk(s, owner, q, s.jobs[q]);
    }
  }

  lemma FinishKeepsWork(s: State, owner: Owners, p: Pair)
    requires Invariant(s, owner) && Enabled(s, Commit(p))
    ensures WorkRemains(Finish(s, p))
  {
    hide BoundRecorded, ExactWhenReconciled, RowsOk, JobOk;
    var s1, job := Finish(s, p), s.jobs[p];
    JobCommandOpen(s, owner, p, job);
    forall q | q in s1.projections && !UpToDate(s1, q)
      ensures HasOpenCommand(s1, q)
    {
      assert HasOpenCommand(s, q);
      var d :| d in s.open && d.pair == q && d.generation == s.projections[q].generation;
      assert d in s1.open;
    }
  }

  lemma FinishKeepsInvariant(s: State, owner: Owners, p: Pair)
    requires Invariant(s, owner) && Enabled(s, Commit(p))
    ensures Invariant(Finish(s, p), owner)
  {
    hide ChannelsOk, RowsOk, CommandsOk, BoundRecorded, ExactWhenReconciled, WorkRemains, JobsOk, Finish;
    FinishKeepsRows(s, owner, p);
    FinishKeepsCommands(s, owner, p);
    FinishKeepsBindings(s, owner, p);
    FinishKeepsJobs(s, owner, p);
    FinishKeepsWork(s, owner, p);
  }

  /** The worker's transaction ends without effect; its own command may be dead-lettered. */
  lemma AbortKeepsInvariant(s: State, owner: Owners, p: Pair, dead: set<Command>)
    requires Invariant(s, owner) && p in s.jobs && dead <= {s.jobs[p].command}
    ensures Invariant(s.(jobs := s.jobs - {p}, dead := s.dead + dead), owner)
  {
    hide BoundRecorded, JobOk, RowsOk, Exact, HasOpenCommand;
    var s1 := s.(jobs := s.jobs - {p}, dead := s.dead + dead);
    TablesCarry(s, s1, owner);
    WorkDependsOn(s, s1);
    JobCommandOpen(s, owner, p, s.jobs[p]);
    forall q | q in s1.jobs
      ensures JobOk(s1, owner, q, s1.jobs[q])
    {
      JobCommandOpen(s, owner, q, s.jobs[q]);
      JobDependsOn(s, s1, owner, q, s.jobs[q]);
    }
  }

  lemma DeadLetterKeepsInvariant(s: State, owner: Owners, p: Pair)
    requires Invariant(s, owner) && p in s.jobs
    ensures Invariant(Apply(s, DeadLetter(p)), owner)
  {
    hide Invariant;
    AbortKeepsInvariant(s, owner, p, {s.jobs[p].command});
  }

  // ----- whole runs -----

  function NextOwners(owner: Owners, a: Step): Owners {
    match a
    case Create(channel, _, slug) => owner[slug := channel]
    case Rename(channel, slug) => owner[slug := channel]
    case _ => owner
  }

  lemma RenameKeepsInvariant(s: State, owner: Owners, channel: nat, slug: Key)
    requires Invariant(s, owner) && Enabled(s, Rename(channel, slug)) && SlugFree(s, channel, slug)
    ensures Invariant(Apply(s, Rename(channel, slug)), owner[slug := channel])
  {
    hide Invariant, Bumped, KeysOwned, SlugFree, ApprovedPairs;
    OwnershipMoves(s, owner, channel, slug);
    ChannelChangeKeepsInvariant(s, owner, channel, s.channels[channel].(slug := slug), owner[slug := channel]);
  }

  lemma DeletedChangeKeepsInvariant(s: State, owner: Owners, channel: nat, deleted: bool)
    requires Invariant(s, owner) && channel in s.channels && Unlocked(s, ApprovedPairs(s, channel))
    ensures Invariant(SetDeleted(s, channel, deleted), owner)
  {
    hide RowsOk, CommandsOk, BoundRecorded, ExactWhenReconciled, WorkRemains, JobsOk, Bumped, KeysOwned, ApprovedPairs;
    InvariantOwnsKeys(s, owner);
    ChannelChangeKeepsInvariant(s, owner, channel, s.channels[channel].(deleted := deleted), owner);
  }

  lemma MembershipKeepsInvariant(s: State, owner: Owners, a: Step)
    requires Invariant(s, owner) && Enabled(s, a) && (a.SetRole? || a.Remove?)
    ensures Invariant(Apply(s, a), owner)
  {
    hide Invariant, Bumped;
    RoleChangeKeepsInvariant(s, owner, a.pair, if a.SetRole? then s.roles[a.pair := a.role] else s.roles - {a.pair});
  }

  lemma ManualRetryKeepsInvariant(s: State, owner: Owners, c: Command)
    requires Invariant(s, owner) && (c in s.done || c in s.dead)
    ensures Invariant(s.(open := s.open + {c}, dead := s.dead - {c}, done := s.done - {c}), owner)
  {
    hide RowsOk, BoundRecorded, ExactWhenReconciled, WorkRemains, JobsOk;
    SnapshotKeepsInvariant(s, owner, c);
  }

  /** Every step keeps the invariant, provided slugs are only assigned when free. */
  lemma StepKeepsInvariant(s: State, owner: Owners, a: Step)
    requires Invariant(s, owner) && Enabled(s, a) && Guarded(s, a)
    ensures Invariant(Apply(s, a), NextOwners(owner, a))
  {
    hide Invariant, SlugFree, Bumped, StartJob, Finish, SetDeleted;
    match a
    case Create(channel, user, slug) => CreateKeepsInvariant(s, owner, channel, user, slug);
    case SetRole(_, _) => MembershipKeepsInvariant(s, owner, a);
    case Remove(_) => MembershipKeepsInvariant(s, owner, a);
    case Rename(channel, slug) => RenameKeepsInvariant(s, owner, channel, slug);
    case Delete(channel) => DeletedChangeKeepsInvariant(s, owner, channel, true);
    case Restore(channel) => DeletedChangeKeepsInvariant(s, owner, channel, false);
    case Reenqueue(pair, serial) => ReenqueueKeepsInvariant(s, owner, pair, serial);
    case Start(command) =>
      if command.generation == s.projections[command.pair].generation {
        JobStartKeepsInvariant(s, owner, command);
      } else {
        StaleCommandKeepsInvariant(s, owner, command);
      }
    case Operate(pair) => OperateKeepsInvariant(s, owner, pair);
    case Commit(pair) => FinishKeepsInvariant(s, owner, pair);
    case Abort(pair) =>
      assert s.dead + {} == s.dead;
      AbortKeepsInvariant(s, owner, pair, {});
    case DeadLetter(pair) => DeadLetterKeepsInvariant(s, owner, pair);
    case ManualRetry(command) => ManualRetryKeepsInvariant(s, owner, command);
  }

  predicate Legal(s: State, run: seq<Step>)
    decreases |run|
  {
    run == [] || (Enabled(s, run[0]) && Legal(Apply(s, run[0]), run[1..]))
  }

  function After(s: State, run: seq<Step>): State
    requires Legal(s, run)
    decreases |run|
  {
    if run == [] then s else After(Apply(s, run[0]), run[1..])
  }

  predicate GuardedRun(s: State, run: seq<Step>)
    requires Legal(s, run)
    decreases |run|
  {
    run == [] || (Guarded(s, run[0]) && GuardedRun(Apply(s, run[0]), run[1..]))
  }

  lemma {:induction false} RunKeepsInvariant(s: State, owner: Owners, run: seq<Step>) returns (owner': Owners)
    requires Invariant(s, owner) && Legal(s, run) && GuardedRun(s, run)
    ensures Invariant(After(s, run), owner')
    decreases |run|
  {
    if run == [] {
      owner' := owner;
    } else {
      hide Invariant, Apply, Enabled, Guarded;
      StepKeepsInvariant(s, owner, run[0]);
      owner' := RunKeepsInvariant(Apply(s, run[0]), NextOwners(owner, run[0]), run[1..]);
    }
  }

  // ----- what the runs promise -----

  /** The pair's recorded keys under which its user's queue is bound. */
  function BoundKeys(s: State, p: Pair): set<Key>
    requires p in s.projections
  {
    set k | k in s.projections[p].keys && (p.user, k) in s.bound
  }

  function WantedKeys(s: State, p: Pair): set<Key> {
    if Entitled(s, p) then {s.channels[p.channel].slug} else {}
  }

  ghost predicate Recorded(s: State, user: nat, k: Key) {
    exists c :: Pair(c, user) in s.projections && k in s.projections[Pair(c, user)].keys
  }

  ghost predicate Sound(s: State) {
    && (forall b :: b in s.bound ==> Recorded(s, b.0, b.1))
    && (forall p :: p in s.projections && UpToDate(s, p) ==> BoundKeys(s, p) == WantedKeys(s, p))
    && (forall p :: p in s.projections && !UpToDate(s, p) ==> HasOpenCommand(s, p))
  }

  lemma UpToDatePairExact(s: State, owner: Owners, p: Pair)
    requires Invariant(s, owner) && p in s.projections && UpToDate(s, p)
    ensures BoundKeys(s, p) == WantedKeys(s, p)
  {
    hide JobsOk, WorkRemains, BoundRecorded, CommandsOk;
    assert Exact(s, p) && RowOk(s, owner, p, s.projections[p]);
  }

  lemma InvariantIsSound(s: State, owner: Owners)
    requires Invariant(s, owner)
    ensures Sound(s)
  {
    hide RowOk, JobOk, Exact, HasOpenCommand, BoundKeys, WantedKeys;
    forall b | b in s.bound
      ensures Recorded(s, b.0, b.1)
    {
      assert Pair(owner[b.1], b.0) in s.projections;
    }
    forall p | p in s.projections && UpToDate(s, p)
      ensures BoundKeys(s, p) == WantedKeys(s, p)
    {
      UpToDatePairExact(s, owner, p);
    }
  }

  lemma EmptyInvariant()
    ensures Invariant(EMPTY, map[])
  {
  }

  /** In every run, bindings are recorded, reconciled pairs are bound exactly as their
      membership says, and every other pair still has an unfinished current command. */
  lemma EveryRunIsSound(run: seq<Step>)
    requires Legal(EMPTY, run) && GuardedRun(EMPTY, run)
    ensures Sound(After(EMPTY, run))
  {
    hide Invariant, Sound, Legal, GuardedRun, After;
    EmptyInvariant();
    var owner := RunKeepsInvariant(EMPTY, map[], run);
    InvariantIsSound(After(EMPTY, run), owner);
  }

  /** Once every pair is reconciled, the broker holds exactly the approved memberships of
      live channels. */
  lemma ReconciledTopology(s: State, owner: Owners)
    requires Invariant(s, owner) && forall p :: p in s.projections ==> UpToDate(s, p)
    ensures forall user: nat, k: Key :: (user, k) in s.bound <==>
              exists c: nat :: Entitled(s, Pair(c, user)) && s.channels[c].slug == k
  {
    hide JobsOk, WorkRemains, CommandsOk;
    forall user: nat, k: Key | (user, k) in s.bound
      ensures exists c: nat :: Entitled(s, Pair(c, user)) && s.channels[c].slug == k
    {
      var b := (user, k);
      var p := Pair(owner[b.1], b.0);
      assert p in s.projections && k in s.projections[p].keys && UpToDate(s, p);
      assert Exact(s, p);
    }
    forall user: nat, k: Key, c: nat | Entitled(s, Pair(c, user)) && s.channels[c].slug == k
      ensures (user, k) in s.bound
    {
      var p := Pair(c, user);
      assert p in s.projections && UpToDate(s, p);
      assert Exact(s, p);
    }
  }
}
