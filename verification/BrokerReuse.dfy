/** Applying a command to the end, and what happens when a slug passes from one channel to
    another: the exact condition under which that is safe. */
module BrokerReuse {
  import opened BrokerBindings

  // ----- composing runs -----

  lemma {:induction false} RunsCompose(s: State, a: seq<Step>, b: seq<Step>)
    requires Legal(s, a) && Legal(After(s, a), b)
    ensures Legal(s, a + b) && After(s, a + b) == After(After(s, a), b)
    decreases |a|
  {
    hide Enabled, Apply;
    if a == [] {
      assert a + b == b;
    } else {
      RunsCompose(Apply(s, a[0]), a[1..], b);
      assert (a + b)[1..] == a[1..] + b;
    }
  }

  /** Steps that assign no slug, which are guarded in every state. */
  predicate AssignsNoSlug(run: seq<Step>) {
    forall i :: 0 <= i < |run| ==> !run[i].Create? && !run[i].Rename?
  }

  /** Steps a worker takes on its own, failures and crashes included. */
  predicate WorkerStep(a: Step) {
    a.Start? || a.Operate? || a.Commit? || a.Abort? || a.DeadLetter?
  }

  predicate WorkerOnly(run: seq<Step>) {
    forall i :: 0 <= i < |run| ==> WorkerStep(run[i])
  }

  lemma {:induction false} AssigningNothingIsGuarded(s: State, run: seq<Step>)
    requires Legal(s, run) && AssignsNoSlug(run)
    ensures GuardedRun(s, run)
    decreases |run|
  {
    hide Enabled, Apply;
    if run != [] {
      AssigningNothingIsGuarded(Apply(s, run[0]), run[1..]);
    }
  }

  // ----- running a worker to the end -----

  function PerformAll(bound: set<(nat, Key)>, user: nat, ops: seq<BrokerOp>): set<(nat, Key)>
    decreases |ops|
  {
    if ops == [] then bound else PerformAll(Perform(bound, user, ops[0]), user, ops[1..])
  }

  lemma {:induction false} PerformUnbinds(bound: set<(nat, Key)>, user: nat, keys: seq<Key>, rest: seq<BrokerOp>)
    decreases |keys|
    ensures PerformAll(bound, user, Unbinds(keys) + rest) == PerformAll(bound - (set k | k in keys :: (user, k)), user, rest)
  {
    var gone := set k | k in keys :: (user, k);
    if keys == [] {
      assert Unbinds(keys) + rest == rest;
      assert bound - gone == bound;
    } else {
      var ops := Unbinds(keys) + rest;
      assert ops[1..] == Unbinds(keys[1..]) + rest;
      PerformUnbinds(bound - {(user, keys[0])}, user, keys[1..], rest);
      assert keys == [keys[0]] + keys[1..];
      assert bound - {(user, keys[0])} - (set k | k in keys[1..] :: (user, k)) == bound - gone;
    }
  }

  /** A whole plan unbinds the known keys but the wanted one and touches nothing else. */
  lemma PerformPlan(bound: set<(nat, Key)>, user: nat, known: seq<Key>, key: Key, bind: bool)
    requires key in known
    ensures var bound' := PerformAll(bound, user, Plan(known, key, bind));
            && (forall k :: k in known ==> ((user, k) in bound' <==> bind && k == key))
            && (forall b :: b in bound' <==> if b.0 == user && b.1 in known then bind && b.1 == key else b in bound)
  {
    if bind {
      PerformUnbinds(bound, user, Without(known, key), [Bind(key)]);
      WithoutMembers(known, key);
      var b1 := bound - (set k | k in Without(known, key) :: (user, k));
      assert PerformAll(b1, user, [Bind(key)]) == b1 + {(user, key)} by {
        assert [Bind(key)][1..] == [];
      }
    } else {
      PerformUnbinds(bound, user, known, []);
      assert Unbinds(known) + [] == Unbinds(known);
    }
  }

  function Operates(p: Pair, n: nat): seq<Step> {
    if n == 0 then [] else [Operate(p)] + Operates(p, n - 1)
  }

  lemma {:induction false} OperatesRun(s: State, p: Pair)
    requires p in s.jobs
    ensures var run := Operates(p, |s.jobs[p].todo|);
            && Legal(s, run) && AssignsNoSlug(run) && WorkerOnly(run)
            && After(s, run) == s.(bound := PerformAll(s.bound, p.user, s.jobs[p].todo),
                                   jobs := s.jobs[p := s.jobs[p].(todo := [])])
    decreases |s.jobs[p].todo|
  {
    hide StartJob, Bumped;
    var job := s.jobs[p];
    if job.todo == [] {
      assert s.jobs[p := job.(todo := [])] == s.jobs;
    } else {
      var s1 := Apply(s, Operate(p));
      var run := Operates(p, |job.todo|);
      assert run[0] == Operate(p) && run[1..] == Operates(p, |s1.jobs[p].todo|);
      OperatesRun(s1, p);
      assert s1.jobs[p := job.(todo := [])] == s.jobs[p := job.(todo := [])];
    }
  }

  /** The rest of a worker's transaction, from any point of it. */
  function Completion(s: State, p: Pair): seq<Step>
    requires p in s.jobs
  {
    Operates(p, |s.jobs[p].todo|) + [Commit(p)]
  }

  lemma CompletionRun(s: State, p: Pair)
    requires p in s.jobs && p in s.projections
    ensures var run, job := Completion(s, p), s.jobs[p];
            && Legal(s, run) && AssignsNoSlug(run) && WorkerOnly(run)
            && After(s, run) == s.(bound := PerformAll(s.bound, p.user, job.todo),
                                   projections := s.projections[p := Reconciled(s.projections[p], job)],
                                   open := s.open - {job.command},
                                   done := s.done + {job.command},
                                   jobs := s.jobs - {p})
  {
    hide PerformAll, Legal, After, AssignsNoSlug, Operates;
    OperatesRun(s, p);
    var ops := Operates(p, |s.jobs[p].todo|);
    var s1 := After(s, ops);
    StepRuns(s1, Commit(p));
    JoinAssignsNothing(Commit(p));
    ExtendRun(s, ops, [Commit(p)]);
    RemovedJob(s.jobs, p, s1.jobs[p]);
  }

  lemma RemovedJob(jobs: map<Pair, Job>, p: Pair, job: Job)
    ensures jobs[p := job] - {p} == jobs - {p}
  {
  }

  /** A command applied from start to commit. */
  function Application(s: State, c: Command): seq<Step>
    requires c.pair in s.projections && c.pair.channel in s.channels
  {
    [Start(c)] + Operates(c.pair, |StartJob(s, c).todo|) + [Commit(c.pair)]
  }

  lemma ApplicationRun(s: State, c: Command)
    requires Enabled(s, Start(c)) && c.generation == s.projections[c.pair].generation
    ensures var run, p, job := Application(s, c), c.pair, StartJob(s, c);
            && Legal(s, run) && AssignsNoSlug(run) && WorkerOnly(run)
            && After(s, run) == s.(bound := PerformAll(s.bound, p.user, job.todo),
                                   projections := s.projections[p := Reconciled(s.projections[p], job)],
                                   open := s.open - {c},
                                   done := s.done + {c})
  {
    hide PerformAll, StartJob;
    var p, job := c.pair, StartJob(s, c);
    StartedJob(s, c);
    var s1 := Begin(s, c);
    CompletionRun(s1, p);
    var run := Application(s, c);
    assert run[1..] == Completion(s1, p);
    assert s1.jobs - {p} == s.jobs;
  }

  lemma StartedJob(s: State, c: Command)
    requires c.pair in s.projections && c.pair.channel in s.channels
    ensures StartJob(s, c).command == c
  {
  }

  // ----- applying the outstanding command restores equality -----

  lemma ApplyingReconciles(s: State, owner: Owners, c: Command)
    requires Invariant(s, owner) && Enabled(s, Start(c)) && c.generation == s.projections[c.pair].generation
    ensures var run := Application(s, c);
            && Legal(s, run)
            && var s' := After(s, run);
            && Sound(s') && c.pair in s'.projections && UpToDate(s', c.pair) && BoundKeys(s', c.pair) == WantedKeys(s, c.pair)
  {
    hide Invariant, PerformAll, StartJob, Sound, BoundKeys, Application, AssignsNoSlug;
    var run := Application(s, c);
    ApplicationRun(s, c);
    AssigningNothingIsGuarded(s, run);
    var owner' := RunKeepsInvariant(s, owner, run);
    InvariantIsSound(After(s, run), owner');
    UpToDatePairExact(After(s, run), owner', c.pair);
  }

  // ----- what workers can do on their own -----

  /** A command of the pair's current generation that a worker may still select. */
  predicate HasWaitingCommand(s: State, p: Pair)
    requires p in s.projections
  {
    exists c :: c in s.open && c !in s.dead && c.pair == p && c.generation == s.projections[p].generation
  }

  /** Reconciled, being worked on, or waiting to be. */
  predicate InHand(s: State, p: Pair)
    requires p in s.projections
  {
    UpToDate(s, p) || p in s.jobs || HasWaitingCommand(s, p)
  }

  predicate ReconciledBy(s: State, run: seq<Step>, p: Pair) {
    Legal(s, run) && p in After(s, run).projections && UpToDate(After(s, run), p)
  }

  lemma WorkersReconcile(s: State, owner: Owners, p: Pair) returns (run: seq<Step>)
    requires Invariant(s, owner) && p in s.projections && InHand(s, p)
    ensures WorkerOnly(run) && ReconciledBy(s, run, p) && Sound(After(s, run))
  {
    hide RowOk, JobOk, BoundRecorded, Exact, PerformAll, StartJob, Sound, Application, Completion;
    if p in s.jobs {
      run := Completion(s, p);
      CompletionRun(s, p);
    } else if UpToDate(s, p) {
      run := [];
    } else {
      var c :| c in s.open && c !in s.dead && c.pair == p && c.generation == s.projections[p].generation;
      run := Application(s, c);
      ApplicationRun(s, c);
    }
    AssigningNothingIsGuarded(s, run);
    var owner' := RunKeepsInvariant(s, owner, run);
    InvariantIsSound(After(s, run), owner');
  }

  /** No worker step brings a pair back that is out of hand: stale commands are acknowledged,
      dead-lettered ones are never selected. */
  lemma WorkerStepLeaves(s: State, owner: Owners, p: Pair, a: Step)
    requires Invariant(s, owner) && p in s.projections && !InHand(s, p) && Enabled(s, a) && WorkerStep(a)
    ensures p in Apply(s, a).projections && !InHand(Apply(s, a), p)
  {
    hide RowsOk, BoundRecorded, ExactWhenReconciled, WorkRemains, JobOk, StartJob, Reconciled;
    var s' := Apply(s, a);
    if a.Commit? || a.DeadLetter? || a.Abort? || a.Operate? {
      JobCommandOpen(s, owner, a.pair, s.jobs[a.pair]);
    }
    forall c | c in s'.open && c.pair == p && c.generation == s'.projections[p].generation
      ensures c in s'.dead
    {
      assert c in s.open;
    }
  }

  lemma {:induction false} WorkersLeave(s: State, owner: Owners, p: Pair, run: seq<Step>)
    requires Invariant(s, owner) && p in s.projections && !InHand(s, p) && Legal(s, run) && WorkerOnly(run)
    ensures p in After(s, run).projections && !InHand(After(s, run), p)
    decreases |run|
  {
    hide Invariant, Enabled, Apply, InHand;
    if run != [] {
      WorkerStepLeaves(s, owner, p, run[0]);
      assert Guarded(s, run[0]);
      StepKeepsInvariant(s, owner, run[0]);
      WorkersLeave(Apply(s, run[0]), NextOwners(owner, run[0]), p, run[1..]);
    }
  }

  /** From a reachable state workers alone can reconcile a pair if and only if it is up to
      date, has a running worker, or has a waiting command of its current generation. */
  lemma WorkersReconcileExactly(s: State, owner: Owners, p: Pair)
    requires Invariant(s, owner) && p in s.projections
    ensures (exists run :: WorkerOnly(run) && ReconciledBy(s, run, p)) <==> InHand(s, p)
  {
    hide Invariant, InHand, WorkerOnly, ReconciledBy, Sound;
    if InHand(s, p) {
      var run := WorkersReconcile(s, owner, p);
    } else {
      forall run | WorkerOnly(run)
        ensures !ReconciledBy(s, run, p)
      {
        NotReconciled(s, owner, p, run);
      }
    }
  }

  lemma NotReconciled(s: State, owner: Owners, p: Pair, run: seq<Step>)
    requires Invariant(s, owner) && p in s.projections && !InHand(s, p) && WorkerOnly(run)
    ensures !ReconciledBy(s, run, p)
  {
    hide Invariant, HasWaitingCommand, Legal, After;
    if Legal(s, run) {
      WorkersLeave(s, owner, p, run);
    }
  }

  /** A pair out of hand has a dead-lettered command of its current generation; retrying it
      by hand, or enqueueing the pair again, puts it back in the workers' hands. */
  lemma OperatorRecovers(s: State, owner: Owners, p: Pair) returns (c: Command, serial: nat)
    requires Invariant(s, owner) && p in s.projections && !InHand(s, p)
    ensures c in s.dead && c.pair == p && c.generation == s.projections[p].generation
    ensures Enabled(s, ManualRetry(c)) && p in Apply(s, ManualRetry(c)).projections && InHand(Apply(s, ManualRetry(c)), p)
    ensures Enabled(s, Reenqueue(p, serial)) && p in Apply(s, Reenqueue(p, serial)).projections && InHand(Apply(s, Reenqueue(p, serial)), p)
  {
    hide RowsOk, BoundRecorded, ExactWhenReconciled, JobsOk;
    assert HasOpenCommand(s, p);
    c :| c in s.open && c.pair == p && c.generation == s.projections[p].generation;
    assert c in s.dead;
    assert HasWaitingCommand(Apply(s, ManualRetry(c)), p) by { assert c in Apply(s, ManualRetry(c)).open; }
    serial := FreshSerial(s.open + s.dead + s.done);
    var again := Command(p, s.projections[p].generation, serial);
    assert HasWaitingCommand(Apply(s, Reenqueue(p, serial)), p) by { assert again in Apply(s, Reenqueue(p, serial)).open; }
  }

  /** So one operator step and workers reconcile any pair of any reachable state. */
  lemma PairCanReconcile(s: State, owner: Owners, p: Pair) returns (operator: seq<Step>, run: seq<Step>)
    requires Invariant(s, owner) && p in s.projections
    ensures WorkerOnly(run) && ReconciledBy(s, operator + run, p) && Sound(After(s, operator + run))
    ensures if InHand(s, p) then operator == [] else |operator| == 1 && operator[0].ManualRetry?
  {
    hide Invariant, InHand, WorkerOnly, Sound, Enabled, Apply;
    if InHand(s, p) {
      operator := [];
      run := WorkersReconcile(s, owner, p);
      assert operator + run == run;
    } else {
      var c, serial := OperatorRecovers(s, owner, p);
      operator := [ManualRetry(c)];
      StepRuns(s, operator[0]);
      assert Guarded(s, operator[0]);
      StepKeepsInvariant(s, owner, operator[0]);
      run := WorkersReconcile(Apply(s, operator[0]), owner, p);
      RunsCompose(s, operator, run);
    }
  }

  /** Such states are reached: a first command that fails once too often. */
  lemma DeadLetteredPairIsStuck() returns (run: seq<Step>, owner: Owners)
    ensures Legal(EMPTY, run) && Invariant(After(EMPTY, run), owner)
    ensures Pair(0, 0) in After(EMPTY, run).projections && !InHand(After(EMPTY, run), Pair(0, 0))
  {
    hide Invariant, InHand, Enabled, Apply, Legal, After;
    var p, c := Pair(0, 0), Command(Pair(0, 0), 1, 0);
    var s1 := CreatedOne();
    owner := map[5 := 0];
    var s2 := StartFirst(s1, owner);
    FirstDies(s2, owner);
    StepRuns(s1, Start(c));
    StepRuns(s2, DeadLetter(p));
    RunsCompose(EMPTY, [Create(0, 0, 5)], [Start(c)]);
    RunsCompose(EMPTY, [Create(0, 0, 5)] + [Start(c)], [DeadLetter(p)]);
    run := [Create(0, 0, 5)] + [Start(c)] + [DeadLetter(p)];
  }

  /** The state after the first command of the first channel was started. */
  lemma StartFirst(s1: State, owner: Owners) returns (s2: State)
    requires Invariant(s1, owner) && s1.projections.Keys == {Pair(0, 0)} && s1.jobs == map[] && 0 in s1.channels
    requires s1.open == {Command(Pair(0, 0), 1, 0)} && s1.dead == {} && s1.projections[Pair(0, 0)].generation == 1
    ensures Enabled(s1, Start(Command(Pair(0, 0), 1, 0))) && s2 == Apply(s1, Start(Command(Pair(0, 0), 1, 0)))
    ensures Invariant(s2, owner) && s2.jobs.Keys == {Pair(0, 0)} && s2.jobs[Pair(0, 0)].command == Command(Pair(0, 0), 1, 0)
    ensures s2.projections == s1.projections && s2.open == s1.open && s2.dead == {}
  {
    hide Invariant, Plan, Distinct;
    s2 := Apply(s1, Start(Command(Pair(0, 0), 1, 0)));
    assert Guarded(s1, Start(Command(Pair(0, 0), 1, 0)));
    StepKeepsInvariant(s1, owner, Start(Command(Pair(0, 0), 1, 0)));
  }

  lemma FirstDies(s2: State, owner: Owners)
    requires Invariant(s2, owner) && s2.projections.Keys == {Pair(0, 0)} && s2.jobs.Keys == {Pair(0, 0)}
    requires s2.jobs[Pair(0, 0)].command == Command(Pair(0, 0), 1, 0) && s2.open == {Command(Pair(0, 0), 1, 0)}
    requires !UpToDate(s2, Pair(0, 0))
    ensures Enabled(s2, DeadLetter(Pair(0, 0)))
    ensures var s3 := Apply(s2, DeadLetter(Pair(0, 0)));
            Invariant(s3, owner) && Pair(0, 0) in s3.projections && !InHand(s3, Pair(0, 0))
  {
    hide Invariant;
    assert Guarded(s2, DeadLetter(Pair(0, 0)));
    StepKeepsInvariant(s2, owner, DeadLetter(Pair(0, 0)));
  }

  // ----- a slug that is not free -----

  lemma {:induction false} FreshSerial(commands: set<Command>) returns (n: nat)
    ensures forall c :: c in commands ==> c.serial < n
    decreases |commands|
  {
    if commands == {} {
      n := 0;
    } else {
      var c :| c in commands;
      var m := FreshSerial(commands - {c});
      n := if m <= c.serial then c.serial + 1 else m;
    }
  }

  /** Pair `q` of one channel still remembers key `k`, which is another channel's slug now. */
  predicate Clash(s: State, q: Pair, b: Pair, k: Key) {
    && q.channel != b.channel && q.user == b.user
    && q in s.projections && q !in s.jobs && q.channel in s.channels
    && k in s.projections[q].keys && s.channels[q.channel].slug != k
    && Live(s, b.channel) && s.channels[b.channel].slug == k
  }

  predicate Joined(s: State, b: Pair) {
    b in s.projections && UpToDate(s, b) && Entitled(s, b)
  }

  lemma StepRuns(s: State, a: Step)
    requires Enabled(s, a)
    ensures Legal(s, [a]) && After(s, [a]) == Apply(s, a)
  {
    assert [a][1..] == [];
  }

  lemma ExtendRun(s: State, run: seq<Step>, more: seq<Step>)
    requires Legal(s, run) && Legal(After(s, run), more) && AssignsNoSlug(run) && AssignsNoSlug(more)
    ensures Legal(s, run + more) && After(s, run + more) == After(After(s, run), more) && AssignsNoSlug(run + more)
  {
    RunsCompose(s, run, more);
  }

  /** The pair's worker, if any, crashes. */
  lemma Unlock(s: State, b: Pair) returns (run: seq<Step>)
    ensures Legal(s, run) && AssignsNoSlug(run) && After(s, run) == s.(jobs := s.jobs - {b})
  {
    if b in s.jobs {
      run := [Abort(b)];
      StepRuns(s, Abort(b));
    } else {
      run := [];
      assert s.jobs - {b} == s.jobs;
    }
  }

  /** The user joins the channel that now has the slug, and is bound. */
  lemma ClashJoins(s: State, q: Pair, b: Pair, k: Key) returns (run: seq<Step>)
    requires Clash(s, q, b, k)
    ensures Legal(s, run) && AssignsNoSlug(run)
    ensures Clash(After(s, run), q, b, k) && Joined(After(s, run), b)
  {
    hide PerformAll, StartJob, Application, AssignsNoSlug, Legal, After, Plan;
    var run1 := Unlock(s, b);
    var s1 := After(s, run1);
    var join := SetRole(b, Member);
    StepRuns(s1, join);
    var s2 := Apply(s1, join);
    assert AssignsNoSlug([join]) by { JoinAssignsNothing(join); }
    ExtendRun(s, run1, [join]);
    var run3 := EnqueueAndApply(s2, b);
    ExtendRun(s, run1 + [join], run3);
    run := run1 + [join] + run3;
  }

  lemma JoinAssignsNothing(a: Step)
    requires !a.Create? && !a.Rename?
    ensures AssignsNoSlug([a])
  {
  }

  /** A pair without a running worker is enqueued again and that command applied. */
  lemma EnqueueAndApply(s: State, p: Pair) returns (run: seq<Step>)
    requires p in s.projections && p !in s.jobs && p.channel in s.channels
    ensures Legal(s, run) && AssignsNoSlug(run)
    ensures var s', key := After(s, run), s.channels[p.channel].slug;
            && s' == s.(bound := s'.bound, projections := s'.projections, open := s'.open, done := s'.done)
            && s'.projections == s.projections[p := Projection(s.projections[p].generation, Entitled(s, p), key, [key], s.projections[p].generation)]
            && forall k :: k in s.projections[p].keys && k != key ==> (p.user, k) !in s'.bound
  {
    hide PerformAll, Application, AssignsNoSlug, Legal, After, Plan, Distinct;
    var serial := FreshSerial(s.open + s.dead + s.done);
    var again := Reenqueue(p, serial);
    StepRuns(s, again);
    var s1 := Apply(s, again);
    JoinAssignsNothing(again);
    var c := Command(p, s.projections[p].generation, serial);
    ApplicationRun(s1, c);
    var job := StartJob(s1, c);
    DistinctMembers(s.projections[p].keys + [s.projections[p].desiredKey, job.key]);
    PerformPlan(s1.bound, p.user, job.known, job.key, job.bind);
    ExtendRun(s, [again], Application(s1, c));
    run := [again] + Application(s1, c);
  }

  /** Re-applying the other channel's row unbinds the key the user is entitled to. */
  lemma ClashUnbinds(s: State, q: Pair, b: Pair, k: Key) returns (run: seq<Step>)
    requires Clash(s, q, b, k) && Joined(s, b)
    ensures Legal(s, run) && AssignsNoSlug(run)
    ensures Joined(After(s, run), b) && After(s, run).channels[b.channel].slug == k && (b.user, k) !in After(s, run).bound
  {
    hide AssignsNoSlug, Legal, After;
    run := EnqueueAndApply(s, q);
  }

  lemma JoinedButUnbound(s: State, b: Pair)
    requires Joined(s, b) && (b.user, s.channels[b.channel].slug) !in s.bound
    ensures !Sound(s)
  {
    assert s.channels[b.channel].slug in WantedKeys(s, b) && s.channels[b.channel].slug !in BoundKeys(s, b);
  }

  lemma ClashBreaks(s: State, q: Pair, b: Pair, k: Key) returns (run: seq<Step>)
    requires Clash(s, q, b, k)
    ensures Legal(s, run) && AssignsNoSlug(run) && !Sound(After(s, run))
  {
    hide Clash, AssignsNoSlug, Legal, After, Sound;
    var run1 := ClashJoins(s, q, b, k);
    var s1 := After(s, run1);
    var run2 := ClashUnbinds(s1, q, b, k);
    ExtendRun(s, run1, run2);
    run := run1 + run2;
    JoinedButUnbound(After(s1, run2), b);
  }

  /** The assignment itself leaves other channels' pairs alone. */
  lemma AssignmentLeavesOthers(s: State, a: Step, q: Pair)
    requires Enabled(s, a) && (a.Create? || a.Rename?) && q.channel != a.channel
    ensures var s1 := Apply(s, a);
            && s1.jobs == s.jobs && s1.bound == s.bound
            && Live(s1, a.channel) && s1.channels[a.channel].slug == a.slug
            && (q in s1.projections <==> q in s.projections)
            && (q in s.projections ==> s1.projections[q] == s.projections[q])
            && (q.channel in s.channels ==> q.channel in s1.channels && s1.channels[q.channel] == s.channels[q.channel])
  {
    hide Bump, Entitled;
  }

  /** Before the assignment, a slug another channel has not let go of can be made a clash. */
  lemma UnfreeSlugClashes(s: State, owner: Owners, a: Step, q: Pair) returns (run: seq<Step>)
    requires Invariant(s, owner) && Enabled(s, a) && (a.Create? || a.Rename?) && q.channel != a.channel
    requires (q in s.projections && a.slug in s.projections[q].keys) || (q in s.jobs && a.slug in s.jobs[q].known)
    ensures Legal(Apply(s, a), run) && AssignsNoSlug(run)
    ensures Clash(After(Apply(s, a), run), q, Pair(a.channel, q.user), a.slug)
  {
    hide PerformAll, StartJob, AssignsNoSlug, Legal, After, Apply, Completion, BoundRecorded, Exact, HasOpenCommand, PlanOk;
    var s1 := Apply(s, a);
    AssignmentLeavesOthers(s, a, q);
    if q in s.projections && a.slug in s.projections[q].keys {
      run := Unlock(s1, q);
    } else {
      StaleJobKey(s, owner, q, a.slug);
      run := Completion(s1, q);
      CompletionRun(s1, q);
    }
  }

  /** A key only the running worker knows is the key it is about to record. */
  lemma StaleJobKey(s: State, owner: Owners, q: Pair, k: Key)
    requires Invariant(s, owner) && q in s.jobs && k in s.jobs[q].known && k !in s.projections[q].keys
    ensures s.jobs[q].key == k
  {
    hide BoundRecorded, Exact, HasOpenCommand;
    assert JobOk(s, owner, q, s.jobs[q]);
  }

  lemma UnfreeSlugBreaks(s: State, owner: Owners, a: Step) returns (run: seq<Step>)
    requires Invariant(s, owner) && Enabled(s, a) && (a.Create? || a.Rename?) && !SlugFree(s, a.channel, a.slug)
    ensures Legal(Apply(s, a), run) && AssignsNoSlug(run) && !Sound(After(Apply(s, a), run))
  {
    hide Invariant, Clash, AssignsNoSlug, Legal, After, Sound, Apply, Enabled;
    var q: Pair :| q.channel != a.channel &&
             ((q in s.projections && a.slug in s.projections[q].keys) || (q in s.jobs && a.slug in s.jobs[q].known));
    var run1 := UnfreeSlugClashes(s, owner, a, q);
    var s1 := After(Apply(s, a), run1);
    var run2 := ClashBreaks(s1, q, Pair(a.channel, q.user), a.slug);
    ExtendRun(Apply(s, a), run1, run2);
    run := run1 + run2;
  }

  /** Handing a slug to a channel is safe for ever after exactly when no other channel's
      row or running worker still refers to it. */
  lemma SlugGuardIsExact(s: State, owner: Owners, a: Step)
    requires Invariant(s, owner) && Enabled(s, a) && (a.Create? || a.Rename?)
    ensures SlugFree(s, a.channel, a.slug) <==>
              forall run :: Legal(Apply(s, a), run) && GuardedRun(Apply(s, a), run) ==> Sound(After(Apply(s, a), run))
  {
    hide Invariant, AssignsNoSlug, Legal, After, Sound, Apply, Enabled, GuardedRun, SlugFree;
    if SlugFree(s, a.channel, a.slug) {
      StepKeepsInvariant(s, owner, a);
      forall run | Legal(Apply(s, a), run) && GuardedRun(Apply(s, a), run)
        ensures Sound(After(Apply(s, a), run))
      {
        var owner' := RunKeepsInvariant(Apply(s, a), NextOwners(owner, a), run);
        InvariantIsSound(After(Apply(s, a), run), owner');
      }
    } else {
      var run := UnfreeSlugBreaks(s, owner, a);
      AssigningNothingIsGuarded(Apply(s, a), run);
    }
  }

  lemma CreatedOne() returns (s: State)
    ensures Legal(EMPTY, [Create(0, 0, 5)]) && s == After(EMPTY, [Create(0, 0, 5)]) && Invariant(s, map[5 := 0])
    ensures s.channels == map[0 := Channel(5, false)] && s.roles == map[Pair(0, 0) := Owner] && s.jobs == map[]
    ensures s.projections.Keys == {Pair(0, 0)} && s.projections[Pair(0, 0)] == Projection(1, true, 5, [5], 0)
    ensures s.open == {Command(Pair(0, 0), 1, 0)} && s.dead == {}
  {
    hide Invariant;
    s := Apply(EMPTY, Create(0, 0, 5));
    EmptyInvariant();
    StepKeepsInvariant(EMPTY, map[], Create(0, 0, 5));
    StepRuns(EMPTY, Create(0, 0, 5));
  }

  /** A channel created as 5 and renamed to 6 before any worker ran still remembers 5. */
  lemma RenamedBeforeApplied() returns (s: State, owner: Owners)
    ensures Legal(EMPTY, [Create(0, 0, 5), Rename(0, 6)]) && s == After(EMPTY, [Create(0, 0, 5), Rename(0, 6)])
    ensures Invariant(s, owner) && Enabled(s, Create(1, 0, 5)) && !SlugFree(s, 1, 5)
  {
    hide Invariant, Legal, After;
    var p, rename := Pair(0, 0), Rename(0, 6);
    var s1 := CreatedOne();
    s, owner := Apply(s1, rename), map[5 := 0][6 := 0];
    StepKeepsInvariant(s1, map[5 := 0], rename);
    assert 5 in s.projections[p].keys;
    StepRuns(s1, rename);
    RunsCompose(EMPTY, [Create(0, 0, 5)], [rename]);
    assert [Create(0, 0, 5)] + [rename] == [Create(0, 0, 5), rename];
  }

  /** The unique constraint on current slugs alone does not protect the projection: a slug
      given up by one channel and taken by another before the worker caught up. */
  lemma ReusedSlugCounterexample() returns (run: seq<Step>)
    ensures Legal(EMPTY, run) && !Sound(After(EMPTY, run))
  {
    hide AssignsNoSlug, Sound, Invariant, Apply, Enabled, SlugFree, Legal, After;
    var s, owner := RenamedBeforeApplied();
    var before, reuse := [Create(0, 0, 5), Rename(0, 6)], Create(1, 0, 5);
    StepRuns(s, reuse);
    var rest := UnfreeSlugBreaks(s, owner, reuse);
    RunsCompose(EMPTY, before, [reuse]);
    RunsCompose(EMPTY, before + [reuse], rest);
    run := before + [reuse] + rest;
  }
}
