/** The life of an outbox row: picked by a worker, published or failed, retried with
    back-off, dead-lettered, reopened by hand; with workers that crash at any point. */
module OutboxLifecycle {
  import opened Hashing

  datatype Status = Pending | Publishing | Published | RetryScheduled | Failed | DeadLettered

  datatype Row = Row(status: Status, attempts: nat, maxAttempts: int, nextRetryAt: int)

  datatype Settings = Settings(maxAttempts: int, initialDelay: int, multiplier: real, maxDelay: int)

  /** The row's own maximum, or the configured one if the row has none, but at least one. */
  function EffectiveMax(c: Settings, row: Row): nat {
    var max := if row.maxAttempts != 0 then row.maxAttempts else c.maxAttempts;
    if max < 1 then 1 else max
  }

  // ----- back-off -----

  function Power(x: real, n: nat): real {
    if n == 0 then 1.0 else x * Power(x, n - 1)
  }

  function Larger(a: real, b: real): real { if a >= b then a else b }

  function Initial(c: Settings): int { if c.initialDelay < 1 then 1 else c.initialDelay }

  function Cap(c: Settings): int { if c.maxDelay < Initial(c) then Initial(c) else c.maxDelay }

  /** The smaller of the cap and the delay, in whole seconds. */
  function Capped(cap: int, delay: real): int { if cap as real <= delay then cap else delay.Floor }

  function Scaled(seconds: int, factor: real): real { seconds as real * factor }

  function Exponent(attempts: nat): nat { if attempts < 1 then 0 else attempts - 1 }

  /** Seconds to wait after the given number of failures. */
  function RetryDelay(c: Settings, attempts: nat): int {
    Capped(Cap(c), Scaled(Initial(c), Power(Larger(1.0, c.multiplier), Exponent(attempts))))
  }

  lemma {:induction false} PowerGrows(x: real, n: nat)
    requires x >= 1.0
    ensures 1.0 <= Power(x, n) <= Power(x, n + 1)
  {
    if n > 0 {
      PowerGrows(x, n - 1);
      ScaleUp(x, Power(x, n - 1), Power(x, n));
    }
  }

  lemma ScaleUp(x: real, a: real, b: real)
    requires x >= 0.0 && a <= b
    ensures x * a <= x * b
  {
  }

  lemma CappedBounds(cap: int, low: int, delay: real, later: real)
    requires low <= cap && low as real <= delay <= later
    ensures low <= Capped(cap, delay) <= cap && Capped(cap, delay) <= Capped(cap, later)
  {
  }

  lemma ScaledGrows(seconds: int, factor: real, more: real)
    requires 0 <= seconds && 1.0 <= factor <= more
    ensures seconds as real <= Scaled(seconds, factor) <= Scaled(seconds, more)
  {
    ScaleUp(seconds as real, 1.0, factor);
    ScaleUp(seconds as real, factor, more);
  }

  /** Delays stay within [initial, cap] and never shrink. */
  lemma DelayBounds(c: Settings, attempts: nat)
    ensures 1 <= Initial(c) <= RetryDelay(c, attempts) <= Cap(c)
    ensures RetryDelay(c, attempts) <= RetryDelay(c, attempts + 1)
  {
    hide Power, Capped, Scaled;
    var x, n, m := Larger(1.0, c.multiplier), Exponent(attempts), Exponent(attempts + 1);
    PowerGrows(x, n);
    ScaledGrows(Initial(c), Power(x, n), Power(x, m));
    CappedBounds(Cap(c), Initial(c), Scaled(Initial(c), Power(x, n)), Scaled(Initial(c), Power(x, m)));
  }

  // ----- steps -----

  /** A worker's open transaction on one row: its uncommitted copy, and whether the publish
      or binding operation has been confirmed. */
  datatype Work = Work(row: Row, confirmed: bool)

  /** `failures` counts committed failures and `sent` confirmed operations since the row was
      created or reopened; `retrying` are rows a manual retry has read but not yet reset. */
  datatype State = State(
    rows: map<nat, Row>,
    working: map<nat, Work>,
    retrying: set<nat>,
    failures: map<nat, nat>,
    sent: map<nat, nat>)

  const EMPTY := State(map[], map[], {}, map[], map[])

  datatype Step =
    | Enqueue(id: nat, maxAttempts: int)
    | Pick(id: nat, now: int)
    | Confirm(id: nat)
    | CommitPublished(id: nat)
    | CommitFailure(id: nat, now: int)
    | Crash(id: nat)
    | ReadForRetry(id: nat)
    | Reset(id: nat)

  predicate Due(row: Row, now: int) {
    row.status == Pending || (row.status == RetryScheduled && row.nextRetryAt <= now)
  }

  predicate ManuallyRetryable(row: Row) {
    row.status in {Failed, RetryScheduled, DeadLettered}
  }

  predicate Enabled(s: State, a: Step) {
    match a
    case Enqueue(id, _) => id !in s.rows
    case Pick(id, now) => id in s.rows && id !in s.working && Due(s.rows[id], now)
    case Confirm(id) => id in s.working && !s.working[id].confirmed
    case CommitPublished(id) => id in s.working && s.working[id].confirmed
    case CommitFailure(id, _) => id in s.working && !s.working[id].confirmed
    case Crash(id) => id in s.working
    case ReadForRetry(id) => id in s.rows && ManuallyRetryable(s.rows[id])
    case Reset(id) => id in s.retrying && id in s.rows && id !in s.working
  }

  /** The row a failed attempt commits. */
  function AfterFailure(c: Settings, row: Row, now: int): Row {
    var attempt := row.attempts + 1;
    if attempt >= EffectiveMax(c, row) then row.(status := DeadLettered, attempts := attempt)
    else row.(status := RetryScheduled, attempts := attempt, nextRetryAt := now + RetryDelay(c, attempt))
  }

  function Count(m: map<nat, nat>, id: nat): nat { if id in m then m[id] else 0 }

  function Apply(c: Settings, s: State, a: Step): State
    requires Enabled(s, a)
  {
    match a
    case Enqueue(id, max) => s.(rows := s.rows[id := Row(Pending, 0, max, 0)], failures := s.failures[id := 0], sent := s.sent[id := 0])
    case Pick(id, _) => s.(working := s.working[id := Work(s.rows[id].(status := Publishing), false)])
    case Confirm(id) => s.(working := s.working[id := s.working[id].(confirmed := true)], sent := s.sent[id := Count(s.sent, id) + 1])
    case CommitPublished(id) => s.(rows := s.rows[id := s.working[id].row.(status := Published)], working := s.working - {id})
    case CommitFailure(id, now) =>
      s.(rows := s.rows[id := AfterFailure(c, s.working[id].row, now)], working := s.working - {id},
         failures := s.failures[id := Count(s.failures, id) + 1])
    case Crash(id) => s.(working := s.working - {id})
    case ReadForRetry(id) => s.(retrying := s.retrying + {id})
    case Reset(id) =>
      s.(rows := s.rows[id := s.rows[id].(status := Pending, attempts := 0)], retrying := s.retrying - {id},
         failures := s.failures[id := 0], sent := s.sent[id := 0])
  }

  // ----- what every run keeps -----

  /** One committed row against its history. */
  predicate RowOk(c: Settings, row: Row, failures: nat, sent: nat) {
    && row.status != Publishing && row.status != Failed
    && row.attempts == failures
    && (row.status == Pending ==> row.attempts == 0)
    && (row.status == RetryScheduled ==> 0 < row.attempts)
    && (row.status in {Pending, RetryScheduled, Published} ==> row.attempts < EffectiveMax(c, row))
    && (row.status == DeadLettered <==> row.attempts == EffectiveMax(c, row))
    && (row.status == Published ==> 0 < sent)
  }

  predicate WorkOk(s: State, id: nat)
    requires id in s.working
  {
    && id in s.rows
    && s.rows[id].status in {Pending, RetryScheduled}
    && s.working[id].row == s.rows[id].(status := Publishing)
    && (s.working[id].confirmed ==> 0 < Count(s.sent, id))
  }

  predicate Invariant(c: Settings, s: State) {
    && (forall id :: id in s.rows ==> RowOk(c, s.rows[id], Count(s.failures, id), Count(s.sent, id)))
    && (forall id :: id in s.working ==> WorkOk(s, id))
  }

  lemma FailureKeepsRow(c: Settings, row: Row, now: int, failures: nat, sent: nat)
    requires RowOk(c, row, failures, sent) && row.status in {Pending, RetryScheduled}
    ensures RowOk(c, AfterFailure(c, row.(status := Publishing), now), failures + 1, sent)
  {
    hide RetryDelay;
  }

  predicate SameAt(s: State, s': State, k: nat) {
    && (k in s'.rows <==> k in s.rows) && (k in s.rows ==> s'.rows[k] == s.rows[k])
    && (k in s'.working <==> k in s.working) && (k in s.working ==> s'.working[k] == s.working[k])
    && Count(s'.failures, k) == Count(s.failures, k) && Count(s'.sent, k) == Count(s.sent, k)
  }

  /** Only the step's own row, work and counts change. */
  ghost predicate Elsewhere(s: State, s': State, id: nat) {
    forall k :: k != id ==> SameAt(s, s', k)
  }

  lemma OneRowChanges(c: Settings, s: State, a: Step)
    requires Enabled(s, a)
    ensures Elsewhere(s, Apply(c, s, a), a.id)
  {
    hide AfterFailure;
  }

  predicate RowAt(c: Settings, s: State, id: nat) {
    && (id in s.rows ==> RowOk(c, s.rows[id], Count(s.failures, id), Count(s.sent, id)))
    && (id in s.working ==> WorkOk(s, id))
  }

  lemma StepKeepsOwnRow(c: Settings, s: State, a: Step)
    requires RowAt(c, s, a.id) && Enabled(s, a)
    ensures RowAt(c, Apply(c, s, a), a.id)
  {
    hide AfterFailure;
    if a.CommitFailure? {
      FailureKeepsRow(c, s.rows[a.id], a.now, Count(s.failures, a.id), Count(s.sent, a.id));
    }
  }

  lemma StepKeepsInvariant(c: Settings, s: State, a: Step)
    requires Invariant(c, s) && Enabled(s, a)
    ensures Invariant(c, Apply(c, s, a))
  {
    hide RowOk, Apply;
    var s' := Apply(c, s, a);
    OneRowChanges(c, s, a);
    StepKeepsOwnRow(c, s, a);
    forall id | id in s'.rows
      ensures RowOk(c, s'.rows[id], Count(s'.failures, id), Count(s'.sent, id))
    {
      assert id != a.id ==> SameAt(s, s', id);
    }
    forall id | id in s'.working
      ensures WorkOk(s', id)
    {
      assert id != a.id ==> SameAt(s, s', id) && WorkOk(s, id);
    }
  }

  predicate Legal(c: Settings, s: State, run: seq<Step>)
    decreases |run|
  {
    run == [] || (Enabled(s, run[0]) && Legal(c, Apply(c, s, run[0]), run[1..]))
  }

  function After(c: Settings, s: State, run: seq<Step>): State
    requires Legal(c, s, run)
    decreases |run|
  {
    if run == [] then s else After(c, Apply(c, s, run[0]), run[1..])
  }

  lemma {:induction false} RunKeepsInvariant(c: Settings, s: State, run: seq<Step>)
    requires Invariant(c, s) && Legal(c, s, run)
    ensures Invariant(c, After(c, s, run))
    decreases |run|
  {
    if run != [] {
      hide Invariant, Enabled, Apply;
      StepKeepsInvariant(c, s, run[0]);
      RunKeepsInvariant(c, Apply(c, s, run[0]), run[1..]);
    }
  }

  /** Over every run with crashes and manual retries: no committed row is left publishing,
      a published row has been confirmed, rows waiting for a worker have attempts to spare,
      and a row is dead-lettered at exactly its maximum of consecutive failures. */
  lemma EveryRunKeepsLifecycle(c: Settings, run: seq<Step>, id: nat)
    requires Legal(c, EMPTY, run) && id in After(c, EMPTY, run).rows
    ensures var s := After(c, EMPTY, run);
            var row := s.rows[id];
            && row.status != Publishing
            && row.attempts == Count(s.failures, id) <= EffectiveMax(c, row)
            && (row.status == Published ==> 0 < Count(s.sent, id))
            && (row.status in {Pending, RetryScheduled} ==> row.attempts < EffectiveMax(c, row))
            && (row.status == DeadLettered <==> Count(s.failures, id) == EffectiveMax(c, row))
  {
    hide Legal, After;
    RunKeepsInvariant(c, EMPTY, run);
  }

  // ----- one call of the batch loop -----

  /** What processing a due row commits. */
  function Processed(c: Settings, row: Row, now: int, works: bool): Row {
    if works then row.(status := Published) else AfterFailure(c, row.(status := Publishing), now)
  }

  /** One transaction of a batch: which row, when, and whether its operation succeeded. */
  datatype Entry = Entry(row: nat, now: int, works: bool)

  /** What the table has become when the k-th transaction selects: other workers, new rows
      and manual retries change it between two transactions. */
  type Others = (nat, seq<Row>) -> seq<Row>

  function Replay(c: Settings, others: Others, rows: seq<Row>, log: seq<Entry>): seq<Row> {
    if log == [] then rows else
      var front, e := log[..|log| - 1], log[|log| - 1];
      var seen := others(|front|, Replay(c, others, rows, front));
      if e.row < |seen| then seen[e.row := Processed(c, seen[e.row], e.now, e.works)] else seen
  }

  /** The table the next transaction sees. */
  function Seen(c: Settings, others: Others, rows: seq<Row>, log: seq<Entry>): seq<Row> {
    others(|log|, Replay(c, others, rows, log))
  }

  /** The oldest due row no other worker has locked. */
  predicate TookOldest(seen: seq<Row>, locked: set<nat>, e: Entry) {
    && e.row < |seen| && Due(seen[e.row], e.now) && e.row !in locked
    && forall j :: 0 <= j < e.row ==> j in locked || !Due(seen[j], e.now)
  }

  predicate OldestFirst(c: Settings, others: Others, locked: nat -> set<nat>, rows: seq<Row>, log: seq<Entry>) {
    forall k :: 0 <= k < |log| ==> TookOldest(Seen(c, others, rows, log[..k]), locked(k), log[k])
  }

  predicate InTimeOrder(log: seq<Entry>) {
    forall i, j :: 0 <= i < j < |log| ==> log[i].now <= log[j].now
  }

  /** The row is not due before the given time. */
  predicate Rests(row: Row, until: int) {
    row.status != Pending && (row.status == RetryScheduled ==> until <= row.nextRetryAt)
  }

  /** The others neither remove a row nor make one due earlier: no manual retry is among them. */
  ghost predicate NoneReopened(others: Others) {
    forall k, rows, i, until :: 0 <= i < |rows| && Rests(rows[i], until) ==>
      i < |others(k, rows)| && Rests(others(k, rows)[i], until)
  }

  lemma ProcessedRests(c: Settings, row: Row, now: int, works: bool)
    ensures Rests(Processed(c, row, now, works), now + Initial(c))
  {
    hide RetryDelay;
    DelayBounds(c, row.attempts + 1);
  }

  lemma RestsLonger(row: Row, until: int, sooner: int)
    requires Rests(row, until) && sooner <= until
    ensures Rests(row, sooner)
  {
  }

  /** Other workers are such others: processing a due row never makes it due earlier. */
  lemma WorkersKeepRest(c: Settings, row: Row, now: int, works: bool, until: int)
    requires Due(row, now) && Rests(row, until)
    ensures Rests(Processed(c, row, now, works), until)
  {
    hide Processed, Initial;
    ProcessedRests(c, row, now, works);
    DelayBounds(c, 0);
    RestsLonger(Processed(c, row, now, works), now + Initial(c), until);
  }

  lemma {:induction false} RestsInBatch(c: Settings, others: Others, rows: seq<Row>, log: seq<Entry>, k: nat)
    requires NoneReopened(others) && InTimeOrder(log) && k < |log| && log[k].row < |Seen(c, others, rows, log[..k])|
    ensures var after := Replay(c, others, rows, log);
            log[k].row < |after| && Rests(after[log[k].row], log[k].now + Initial(c))
    decreases |log|
  {
    hide Processed, Rests;
    var front, e := log[..|log| - 1], log[|log| - 1];
    if k < |front| {
      assert front[..k] == log[..k];
      RestsInBatch(c, others, rows, front, k);
    }
    var seen := Seen(c, others, rows, front);
    if e.row == log[k].row {
      ProcessedRests(c, seen[e.row], e.now, e.works);
      RestsLonger(Processed(c, seen[e.row], e.now, e.works), e.now + Initial(c), log[k].now + Initial(c));
    }
  }

  /** However long a batch takes and whatever other workers do, it comes back to a row only
      after the initial delay. */
  lemma NoEarlyRetry(c: Settings, others: Others, locked: nat -> set<nat>, rows: seq<Row>, log: seq<Entry>, k: nat, m: nat)
    requires NoneReopened(others) && OldestFirst(c, others, locked, rows, log) && InTimeOrder(log)
    requires k < m < |log| && log[k].row == log[m].row
    ensures log[k].now + Initial(c) <= log[m].now
  {
    hide Replay, Initial;
    var before := log[..m];
    assert TookOldest(Seen(c, others, rows, before), locked(m), log[m]);
    assert TookOldest(Seen(c, others, rows, log[..k]), locked(k), log[k]);
    assert before[k] == log[k] && before[..k] == log[..k];
    RestsInBatch(c, others, rows, before, k);
    var row, until, after := log[k].row, log[k].now + Initial(c), Replay(c, others, rows, before);
    assert Rests(after[row], until);
    assert Rests(others(|before|, after)[row], until);
  }

  predicate Changes(before: seq<Row>, after: seq<Row>, i: nat) {
    i < |before| && (i >= |after| || after[i] != before[i])
  }

  /** The others did something to a row at some point of the batch. */
  predicate ChangedByOthers(c: Settings, others: Others, rows: seq<Row>, log: seq<Entry>, i: nat) {
    exists k :: 0 <= k <= |log| && Changes(Replay(c, others, rows, log[..k]), Seen(c, others, rows, log[..k]), i)
  }

  lemma {:induction false} UntouchedRow(c: Settings, others: Others, rows: seq<Row>, log: seq<Entry>, i: nat)
    requires i < |rows| && !ChangedByOthers(c, others, rows, log, i)
    requires forall k :: 0 <= k < |log| ==> log[k].row != i
    ensures var after, seen := Replay(c, others, rows, log), Seen(c, others, rows, log);
            i < |after| && i < |seen| && after[i] == rows[i] == seen[i]
  {
    hide Processed;
    assert log[..|log|] == log;
    if log != [] {
      var front := log[..|log| - 1];
      forall k | 0 <= k <= |front|
        ensures front[..k] == log[..k]
      {
      }
      UntouchedRow(c, others, rows, front, i);
    }
    assert !Changes(Replay(c, others, rows, log), Seen(c, others, rows, log), i);
  }

  /** A row due at the start that the others left alone has been taken, or is locked now. */
  lemma TurnTaken(c: Settings, others: Others, rows: seq<Row>, log: seq<Entry>, locked: set<nat>, start: int, now: int, i: nat)
    requires start <= now && i < |rows| && Due(rows[i], start)
    requires forall j :: 0 <= j < |Seen(c, others, rows, log)| ==> j in locked || !Due(Seen(c, others, rows, log)[j], now)
    ensures i in locked || ChangedByOthers(c, others, rows, log, i) || exists k :: 0 <= k < |log| && log[k].row == i
  {
    hide ChangedByOthers, Seen;
    if !ChangedByOthers(c, others, rows, log, i) && forall k :: 0 <= k < |log| ==> log[k].row != i {
      UntouchedRow(c, others, rows, log, i);
    }
  }

  ghost predicate Advances(clock: nat -> int) {
    forall i, j :: 0 <= i < j ==> clock(i) <= clock(j)
  }

  lemma FromStart(clock: nat -> int, n: nat)
    requires Advances(clock)
    ensures clock(0) <= clock(n)
  {
  }

  lemma LogInOrder(clock: nat -> int, log: seq<Entry>)
    requires Advances(clock) && forall k :: 0 <= k < |log| ==> log[k].now == clock(k)
    ensures InTimeOrder(log)
  {
  }

  lemma NothingLogged(c: Settings, others: Others, locked: nat -> set<nat>, rows: seq<Row>)
    ensures Replay(c, others, rows, []) == rows && OldestFirst(c, others, locked, rows, [])
  {
  }

  lemma LogGrows(c: Settings, others: Others, locked: nat -> set<nat>, rows: seq<Row>, log: seq<Entry>, e: Entry)
    requires OldestFirst(c, others, locked, rows, log) && TookOldest(Seen(c, others, rows, log), locked(|log|), e)
    ensures OldestFirst(c, others, locked, rows, log + [e])
    ensures var seen := Seen(c, others, rows, log);
            Replay(c, others, rows, log + [e]) == seen[e.row := Processed(c, seen[e.row], e.now, e.works)]
  {
    hide Due, Processed;
    var more := log + [e];
    assert more[..|log|] == log;
    forall k | 0 <= k < |more|
      ensures TookOldest(Seen(c, others, rows, more[..k]), locked(k), more[k])
    {
      if k < |log| {
        assert more[..k] == log[..k];
      }
    }
  }

  class Outbox {
    const c: Settings
    /** Rows in order of creation. */
    var rows: seq<Row>

    constructor (c: Settings, rows: seq<Row>)
      ensures this.c == c && this.rows == rows
    {
      this.c, this.rows := c, rows;
    }

    /** The oldest due row that is not locked. */
    method OldestDue(now: int, locked: set<nat>) returns (i: nat)
      ensures i <= |rows| && (i < |rows| ==> Due(rows[i], now) && i !in locked)
      ensures forall j :: 0 <= j < i ==> j in locked || !Due(rows[j], now)
    {
      i := 0;
      while i < |rows| && (i in locked || !Due(rows[i], now))
        invariant i <= |rows| && forall j :: 0 <= j < i ==> j in locked || !Due(rows[j], now)
      {
        i := i + 1;
      }
    }

    /** Up to `limit` transactions, each on the table as the others have left it and past the
        rows they hold locked; `clock(k)` is the time of the k-th, and `works(k)` whether its
        publish or binding operation succeeds. Every row due at the start has had its turn,
        unless the limit was used up, the others changed it or one of them holds it now. */
    method ProcessBatch(limit: nat, others: Others, locked: nat -> set<nat>, clock: nat -> int, works: nat -> bool)
      returns (log: seq<Entry>)
      requires Advances(clock)
      modifies this
      ensures |log| <= limit && OldestFirst(c, others, locked, old(rows), log) && InTimeOrder(log)
      ensures rows == if |log| == limit then Replay(c, others, old(rows), log) else Seen(c, others, old(rows), log)
      ensures forall k :: 0 <= k < |log| ==> log[k].now == clock(k) && log[k].works == works(k)
      ensures |log| < limit ==> forall i :: 0 <= i < |rows| ==> i in locked(|log|) || !Due(rows[i], clock(|log|))
      ensures |log| < limit ==> forall i :: 0 <= i < |old(rows)| && Due(old(rows)[i], clock(0)) ==>
                i in locked(|log|) || ChangedByOthers(c, others, old(rows), log, i) || exists k :: 0 <= k < |log| && log[k].row == i
    {
      hide Processed, Due, Replay, OldestFirst, Advances, ChangedByOthers;
      ghost var before := rows;
      log := [];
      NothingLogged(c, others, locked, before);
      while |log| < limit
        invariant |log| <= limit && rows == Replay(c, others, before, log) && OldestFirst(c, others, locked, before, log)
        invariant forall k :: 0 <= k < |log| ==> log[k].now == clock(k) && log[k].works == works(k)
        decreases limit - |log|
      {
        rows := others(|log|, rows);
        var now := clock(|log|);
        var i := OldestDue(now, locked(|log|));
        if i == |rows| {
          FromStart(clock, |log|);
          LogInOrder(clock, log);
          forall j | 0 <= j < |before| && Due(before[j], clock(0))
            ensures j in locked(|log|) || ChangedByOthers(c, others, before, log, j) || exists k :: 0 <= k < |log| && log[k].row == j
          {
            TurnTaken(c, others, before, log, locked(|log|), clock(0), now, j);
          }
          return;
        }
        var e := Entry(i, now, works(|log|));
        LogGrows(c, others, locked, before, log, e);
        rows := rows[i := Processed(c, rows[i], now, e.works)];
        log := log + [e];
      }
      LogInOrder(clock, log);
    }
  }
}
