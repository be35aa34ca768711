/** A maintenance pass over stored rows in batches: each row may replace its file at once,
    while row updates become durable only when their batch commits. A crash at any point
    drops the uncommitted updates, keeps the replaced files, and the pass starts over. */
module Maintenance {
  import opened Hashing

  /** `pending` are the uncommitted rows of `start..position`. */
  datatype State<R, F> = State(rows: seq<R>, files: seq<F>, start: nat, position: nat, pending: seq<R>)

  /** `salt` stands for the randomness one row's encryption draws. */
  datatype Step<S> = Process(salt: S) | CommitBatch | Crash

  /** One kind of rows: how one is processed, what its content is, when nothing is left to do. */
  datatype Kind<!R, !F, !S, V> = Kind(
    process: (R, F, S) -> Option<(R, F)>,
    view: (R, F) -> V,
    safe: (R, F) -> bool,
    done: (R, F) -> bool)

  predicate KeepsContent<R, F, S, V(==)>(k: Kind<R, F, S, V>, r: R, f: F, to: (R, F)) {
    && k.view(r, to.1) == k.view(r, f) && k.safe(r, to.1)
    && k.view(to.0, to.1) == k.view(r, f) && k.safe(to.0, to.1)
    && k.done(to.0, to.1)
  }

  /** Processing keeps the content, also while only the file has been replaced. */
  ghost predicate Preserves<R(!new), F(!new), S(!new), V>(k: Kind<R, F, S, V>) {
    forall r, f, s :: k.process(r, f, s).Some? && k.safe(r, f) ==> KeepsContent(k, r, f, k.process(r, f, s).value)
  }

  /** A finished row is left exactly as it is. */
  ghost predicate Settles<R(!new), F(!new), S(!new), V>(k: Kind<R, F, S, V>) {
    forall r, f, s :: k.done(r, f) ==> k.process(r, f, s) == Some((r, f))
  }

  predicate InBatch<R, F>(s: State<R, F>, batchSize: nat) {
    s.position < |s.rows| && s.position < |s.files| && s.position - s.start < batchSize
  }

  predicate Enabled<R, F, S>(s: State<R, F>, a: Step<S>, batchSize: nat) {
    match a
    case Process(_) => InBatch(s, batchSize)
    case CommitBatch => s.start < s.position && !InBatch(s, batchSize)
    case Crash => true
  }

  function Restarted<R, F>(s: State<R, F>): State<R, F> {
    s.(start := 0, position := 0, pending := [])
  }

  /** An error raised while processing ends the pass like a crash. */
  function Apply<R, F, S, V>(k: Kind<R, F, S, V>, s: State<R, F>, a: Step<S>, batchSize: nat): State<R, F>
    requires Enabled(s, a, batchSize)
  {
    match a
    case Process(salt) =>
      (match k.process(s.rows[s.position], s.files[s.position], salt)
       case None => Restarted(s)
       case Some(to) => s.(files := s.files[s.position := to.1], position := s.position + 1, pending := s.pending + [to.0]))
    case CommitBatch =>
      s.(rows := if s.start + |s.pending| <= |s.rows| then s.rows[..s.start] + s.pending + s.rows[s.start + |s.pending|..] else s.rows,
         start := s.position, pending := [])
    case Crash => Restarted(s)
  }

  predicate Legal<R, F, S, V>(k: Kind<R, F, S, V>, s: State<R, F>, run: seq<Step<S>>, batchSize: nat)
    decreases |run|
  {
    run == [] || (Enabled(s, run[0], batchSize) && Legal(k, Apply(k, s, run[0], batchSize), run[1..], batchSize))
  }

  function After<R, F, S, V>(k: Kind<R, F, S, V>, s: State<R, F>, run: seq<Step<S>>, batchSize: nat): State<R, F>
    requires Legal(k, s, run, batchSize)
    decreases |run|
  {
    if run == [] then s else After(k, Apply(k, s, run[0], batchSize), run[1..], batchSize)
  }

  function Fresh<R, F>(rows: seq<R>, files: seq<F>): State<R, F> { State(rows, files, 0, 0, []) }

  /** The pass went through all rows and committed them. */
  predicate Completed<R, F>(s: State<R, F>) { s.start == s.position == |s.rows| }

  // ----- content is kept from every crash point -----

  predicate Shape<R, F>(s: State<R, F>, n: nat) {
    |s.rows| == |s.files| == n && s.start <= s.position <= n && |s.pending| == s.position - s.start
  }

  predicate Kept<R, F, S, V(==)>(k: Kind<R, F, S, V>, s: State<R, F>, before: seq<V>) {
    && Shape(s, |before|)
    && (forall i :: 0 <= i < |s.rows| ==> k.view(s.rows[i], s.files[i]) == before[i] && k.safe(s.rows[i], s.files[i]))
    && (forall i :: 0 <= i < s.start ==> k.done(s.rows[i], s.files[i]))
    && (forall i :: s.start <= i < s.position ==>
          && k.view(s.pending[i - s.start], s.files[i]) == before[i] && k.safe(s.pending[i - s.start], s.files[i])
          && k.done(s.pending[i - s.start], s.files[i]))
  }

  lemma ProcessKeeps<R(!new), F(!new), S(!new), V>(k: Kind<R, F, S, V>, s: State<R, F>, before: seq<V>, salt: S, batchSize: nat)
    requires Preserves(k) && Kept(k, s, before) && Enabled(s, Process(salt), batchSize)
    ensures Kept(k, Apply(k, s, Process(salt), batchSize), before)
  {
    var r, f := s.rows[s.position], s.files[s.position];
    if k.process(r, f, salt).Some? {
      assert KeepsContent(k, r, f, k.process(r, f, salt).value);
    }
  }

  lemma CommitKeeps<R, F, S, V>(k: Kind<R, F, S, V>, s: State<R, F>, before: seq<V>, a: Step<S>, batchSize: nat)
    requires a.CommitBatch? && Kept(k, s, before) && Enabled(s, a, batchSize)
    ensures Kept(k, Apply(k, s, a, batchSize), before)
  {
    var rows := Apply(k, s, a, batchSize).rows;
    assert rows == s.rows[..s.start] + s.pending + s.rows[s.position..];
    forall i | s.start <= i < s.position
      ensures rows[i] == s.pending[i - s.start]
    {
    }
  }

  lemma StepKeeps<R(!new), F(!new), S(!new), V>(k: Kind<R, F, S, V>, s: State<R, F>, before: seq<V>, a: Step<S>, batchSize: nat)
    requires Preserves(k) && Kept(k, s, before) && Enabled(s, a, batchSize)
    ensures Kept(k, Apply(k, s, a, batchSize), before)
  {
    match a
    case Process(salt) => ProcessKeeps(k, s, before, salt, batchSize);
    case CommitBatch => CommitKeeps(k, s, before, a, batchSize);
    case Crash =>
  }

  lemma {:induction false} RunKeeps<R(!new), F(!new), S(!new), V>(k: Kind<R, F, S, V>, s: State<R, F>, before: seq<V>, run: seq<Step<S>>, batchSize: nat)
    requires Preserves(k) && Kept(k, s, before) && Legal(k, s, run, batchSize)
    ensures Kept(k, After(k, s, run, batchSize), before)
    decreases |run|
  {
    if run != [] {
      hide Preserves, Kept, Enabled, Apply;
      StepKeeps(k, s, before, run[0], batchSize);
      RunKeeps(k, Apply(k, s, run[0], batchSize), before, run[1..], batchSize);
    }
  }

  predicate AllSafe<R, F, S, V>(k: Kind<R, F, S, V>, rows: seq<R>, files: seq<F>) {
    |rows| == |files| && forall i :: 0 <= i < |rows| ==> k.safe(rows[i], files[i])
  }

  predicate AllDone<R, F, S, V>(k: Kind<R, F, S, V>, rows: seq<R>, files: seq<F>) {
    |rows| == |files| && forall i :: 0 <= i < |rows| ==> k.done(rows[i], files[i])
  }

  function Views<R, F, S, V>(k: Kind<R, F, S, V>, rows: seq<R>, files: seq<F>): (v: seq<V>)
    requires |rows| == |files|
    ensures |v| == |rows| && forall i :: 0 <= i < |rows| ==> v[i] == k.view(rows[i], files[i])
  {
    if rows == [] then [] else
      Views(k, rows[..|rows| - 1], files[..|rows| - 1]) + [k.view(rows[|rows| - 1], files[|rows| - 1])]
  }

  /** Through any number of crashes and restarts no content ever changes, and when a pass
      completes every row is finished. */
  lemma EveryRunKeepsContent<R(!new), F(!new), S(!new), V>(k: Kind<R, F, S, V>, rows: seq<R>, files: seq<F>, run: seq<Step<S>>, batchSize: nat)
    requires Preserves(k) && AllSafe(k, rows, files) && Legal(k, Fresh(rows, files), run, batchSize)
    ensures var s := After(k, Fresh(rows, files), run, batchSize);
            && |s.rows| == |s.files| == |rows|
            && Views(k, s.rows, s.files) == Views(k, rows, files)
            && (Completed(s) ==> AllDone(k, s.rows, s.files))
  {
    hide Legal, After;
    RunKeeps(k, Fresh(rows, files), Views(k, rows, files), run, batchSize);
  }

  // ----- a further pass changes nothing -----

  predicate Idle<R(==), F(==), S, V>(k: Kind<R, F, S, V>, s: State<R, F>, rows: seq<R>, files: seq<F>) {
    && s.rows == rows && s.files == files && Shape(s, |rows|) && AllDone(k, rows, files)
    && s.pending == rows[s.start..s.position]
  }

  lemma StepIdles<R(!new), F(!new), S(!new), V>(k: Kind<R, F, S, V>, s: State<R, F>, rows: seq<R>, files: seq<F>, a: Step<S>, batchSize: nat)
    requires Settles(k) && Idle(k, s, rows, files) && Enabled(s, a, batchSize)
    ensures Idle(k, Apply(k, s, a, batchSize), rows, files)
  {
    match a
    case Process(salt) =>
      var i := s.position;
      assert k.process(rows[i], files[i], salt) == Some((rows[i], files[i]));
      assert files[i := files[i]] == files;
      assert rows[s.start..i + 1] == rows[s.start..i] + [rows[i]];
    case CommitBatch =>
      assert rows == rows[..s.start] + rows[s.start..s.position] + rows[s.position..];
    case Crash =>
  }

  lemma {:induction false} FurtherRunChangesNothing<R(!new), F(!new), S(!new), V>(k: Kind<R, F, S, V>, s: State<R, F>, run: seq<Step<S>>, batchSize: nat)
    requires Settles(k) && Idle(k, s, s.rows, s.files) && Legal(k, s, run, batchSize)
    ensures var s' := After(k, s, run, batchSize);
            s'.rows == s.rows && s'.files == s.files
    decreases |run|
  {
    if run != [] {
      hide Settles, Enabled, Apply;
      StepIdles(k, s, s.rows, s.files, run[0], batchSize);
      FurtherRunChangesNothing(k, Apply(k, s, run[0], batchSize), run[1..], batchSize);
    }
  }

  // ----- when a pass can complete -----

  ghost predicate Processable<R, F, S(!new), V>(k: Kind<R, F, S, V>, r: R, f: F) {
    exists salt :: k.process(r, f, salt).Some?
  }

  ghost predicate AllProcessable<R, F, S(!new), V>(k: Kind<R, F, S, V>, rows: seq<R>, files: seq<F>) {
    |rows| == |files| && forall i :: 0 <= i < |rows| ==> Processable(k, rows[i], files[i])
  }

  /** A row that was not processable to begin with is as it was, and lies ahead. */
  ghost predicate Blocked<R, F, S(!new), V>(k: Kind<R, F, S, V>, s: State<R, F>, i: nat, r: R, f: F) {
    && i < |s.rows| == |s.files| && s.start <= s.position <= i && |s.pending| == s.position - s.start
    && s.rows[i] == r && s.files[i] == f && !Processable(k, r, f)
  }

  lemma StepStaysBlocked<R, F, S(!new), V>(k: Kind<R, F, S, V>, s: State<R, F>, i: nat, r: R, f: F, a: Step<S>, batchSize: nat)
    requires Blocked(k, s, i, r, f) && Enabled(s, a, batchSize)
    ensures Blocked(k, Apply(k, s, a, batchSize), i, r, f)
  {
    if a.Process? && s.position == i {
      assert k.process(r, f, a.salt).None?;
    }
  }

  lemma {:induction false} RunStaysBlocked<R, F, S(!new), V>(k: Kind<R, F, S, V>, s: State<R, F>, i: nat, r: R, f: F, run: seq<Step<S>>, batchSize: nat)
    requires Blocked(k, s, i, r, f) && Legal(k, s, run, batchSize)
    ensures Blocked(k, After(k, s, run, batchSize), i, r, f)
    decreases |run|
  {
    if run != [] {
      hide Blocked, Enabled, Apply;
      StepStaysBlocked(k, s, i, r, f, run[0], batchSize);
      RunStaysBlocked(k, Apply(k, s, run[0], batchSize), i, r, f, run[1..], batchSize);
    }
  }

  /** What lies ahead of a pass is untouched and processable. */
  ghost predicate Ahead<R, F, S(!new), V>(k: Kind<R, F, S, V>, s: State<R, F>) {
    && Shape(s, |s.rows|)
    && forall i :: s.position <= i < |s.rows| ==> Processable(k, s.rows[i], s.files[i])
  }

  /** A pass without crashes goes through. */
  lemma {:induction false} PassGoesThrough<R, F, S(!new), V>(k: Kind<R, F, S, V>, s: State<R, F>, batchSize: nat) returns (run: seq<Step<S>>)
    requires 0 < batchSize && Ahead(k, s) && s.position - s.start <= batchSize
    ensures Legal(k, s, run, batchSize) && Completed(After(k, s, run, batchSize))
    decreases |s.rows| - s.position, s.position - s.start
  {
    if Completed(s) {
      run := [];
    } else if InBatch(s, batchSize) {
      assert Processable(k, s.rows[s.position], s.files[s.position]);
      var salt :| k.process(s.rows[s.position], s.files[s.position], salt).Some?;
      var rest := PassGoesThrough(k, Apply(k, s, Process(salt), batchSize), batchSize);
      run := [Process(salt)] + rest;
      assert run[1..] == rest;
    } else {
      var commit: Step<S> := CommitBatch;
      var s' := Apply(k, s, commit, batchSize);
      CommitLeavesAhead(k, s, s');
      var rest := PassGoesThrough(k, s', batchSize);
      run := [commit] + rest;
      assert run[1..] == rest;
    }
  }

  lemma CommitLeavesAhead<R, F, S(!new), V>(k: Kind<R, F, S, V>, s: State<R, F>, s': State<R, F>)
    requires Ahead(k, s)
    requires s' == s.(rows := s.rows[..s.start] + s.pending + s.rows[s.position..], start := s.position, pending := [])
    ensures Ahead(k, s')
  {
    forall i | s'.position <= i < |s'.rows|
      ensures Processable(k, s'.rows[i], s'.files[i])
    {
      assert s'.rows[i] == s.rows[i];
    }
  }

  predicate CompletedBy<R, F, S, V>(k: Kind<R, F, S, V>, rows: seq<R>, files: seq<F>, run: seq<Step<S>>, batchSize: nat) {
    Legal(k, Fresh(rows, files), run, batchSize) && Completed(After(k, Fresh(rows, files), run, batchSize))
  }

  /** Some run completes, crashes and restarts allowed, if and only if every row can be
      processed as it stands: one that cannot stops every pass for good. */
  lemma CompletesExactly<R, F, S(!new), V>(k: Kind<R, F, S, V>, rows: seq<R>, files: seq<F>, batchSize: nat)
    requires 0 < batchSize && |rows| == |files|
    ensures (exists run :: CompletedBy(k, rows, files, run, batchSize)) <==> AllProcessable(k, rows, files)
  {
    hide Legal, After, Processable;
    if AllProcessable(k, rows, files) {
      var run := PassGoesThrough(k, Fresh(rows, files), batchSize);
      assert CompletedBy(k, rows, files, run, batchSize);
    } else {
      var i :| 0 <= i < |rows| && !Processable(k, rows[i], files[i]);
      forall run | Legal(k, Fresh(rows, files), run, batchSize)
        ensures !CompletedBy(k, rows, files, run, batchSize)
      {
        RunStaysBlocked(k, Fresh(rows, files), i, rows[i], files[i], run, batchSize);
      }
    }
  }

  // ----- the loop -----

  lemma KeptShape<R, F, S, V>(k: Kind<R, F, S, V>, s: State<R, F>, before: seq<V>)
    requires Kept(k, s, before)
    ensures Shape(s, |before|)
  {
  }

  lemma ProcessedRow<R(!new), F(!new), S(!new), V>(k: Kind<R, F, S, V>, s: State<R, F>, before: seq<V>, salt: S)
    requires Preserves(k) && Kept(k, s, before) && s.position < |s.rows| && s.position < |s.files|
    requires k.process(s.rows[s.position], s.files[s.position], salt).Some?
    ensures var to := k.process(s.rows[s.position], s.files[s.position], salt).value;
            Kept(k, State(s.rows, s.files[s.position := to.1], s.start, s.position + 1, s.pending + [to.0]), before)
  {
    hide Preserves, Kept;
    KeptShape(k, s, before);
    ProcessKeeps(k, s, before, salt, s.position - s.start + 1);
  }

  lemma CommittedRows<R, F, S, V>(k: Kind<R, F, S, V>, s: State<R, F>, before: seq<V>)
    requires Kept(k, s, before) && s.start < s.position <= |s.rows|
    ensures Kept(k, State(s.rows[..s.start] + s.pending + s.rows[s.position..], s.files, s.position, s.position, []), before)
  {
    hide Kept;
    KeptShape(k, s, before);
    CommitKeeps(k, s, before, CommitBatch, s.position - s.start);
  }

  lemma KeptViews<R, F, S, V>(k: Kind<R, F, S, V>, s: State<R, F>, before: seq<V>)
    requires Kept(k, s, before)
    ensures AllSafe(k, s.rows, s.files) && Views(k, s.rows, s.files) == before
    ensures s.start == |s.rows| ==> AllDone(k, s.rows, s.files)
  {
  }

  /** The rows of one table and the files beside them. */
  class Store<R(!new), F(!new)> {
    var rows: seq<R>
    var files: seq<F>

    constructor (rows: seq<R>, files: seq<F>)
      ensures this.rows == rows && this.files == files
    {
      this.rows, this.files := rows, files;
    }

    /** One batch: files are replaced row by row, the new rows are returned uncommitted. */
    method RunBatch<S(!new), V>(k: Kind<R, F, S, V>, cursor: nat, end: nat, salts: nat -> S, ghost before: seq<V>) returns (ok: bool, pending: seq<R>)
      requires Preserves(k) && Kept(k, State(rows, files, cursor, cursor, []), before) && cursor <= end <= |rows|
      modifies this`files
      ensures ok ==> Kept(k, State(rows, files, cursor, end, pending), before)
      ensures !ok ==> Kept(k, State(rows, files, 0, 0, []), before)
      ensures !ok ==> exists i :: 0 <= i < |rows| <= |files| && k.process(rows[i], files[i], salts(i)).None?
    {
      hide Preserves, Kept;
      KeptShape(k, State(rows, files, cursor, cursor, []), before);
      var i: nat := cursor;
      pending := [];
      while i < end
        invariant cursor <= i <= end && |files| == |rows|
        invariant Kept(k, State(rows, files, cursor, i, pending), before)
      {
        var to := k.process(rows[i], files[i], salts(i));
        if to.None? {
          KeptRestarts(k, State(rows, files, cursor, i, pending), before);
          return false, pending;
        }
        ProcessedRow(k, State(rows, files, cursor, i, pending), before, salts(i));
        files, pending, i := files[i := to.value.1], pending + [to.value.0], i + 1;
      }
      ok := true;
    }

    /** One pass in id order. `salts(i)` is the randomness row i draws. */
    method RunPass<S(!new), V>(k: Kind<R, F, S, V>, batchSize: nat, salts: nat -> S) returns (ok: bool)
      requires 0 < batchSize && Preserves(k) && AllSafe(k, rows, files)
      modifies this
      ensures AllSafe(k, rows, files) && |rows| == old(|rows|)
      ensures Views(k, rows, files) == old(Views(k, rows, files))
      ensures ok ==> AllDone(k, rows, files)
      ensures !ok ==> exists i :: 0 <= i < |rows| && k.process(rows[i], files[i], salts(i)).None?
    {
      ghost var before := Views(k, rows, files);
      assert Kept(k, State(rows, files, 0, 0, []), before);
      hide Preserves, Kept, AllSafe, AllDone;
      var cursor: nat := 0;
      while cursor < |rows|
        invariant cursor <= |rows| == |before|
        invariant Kept(k, State(rows, files, cursor, cursor, []), before)
      {
        var end := if cursor + batchSize <= |rows| then cursor + batchSize else |rows|;
        var done, pending := RunBatch(k, cursor, end, salts, before);
        if !done {
          KeptViews(k, State(rows, files, 0, 0, []), before);
          return false;
        }
        KeptShape(k, State(rows, files, cursor, end, pending), before);
        CommittedRows(k, State(rows, files, cursor, end, pending), before);
        rows, cursor := rows[..cursor] + pending + rows[end..], end;
      }
      KeptViews(k, State(rows, files, cursor, cursor, []), before);
      ok := true;
    }
  }

  lemma KeptRestarts<R, F, S, V>(k: Kind<R, F, S, V>, s: State<R, F>, before: seq<V>)
    requires Kept(k, s, before)
    ensures Kept(k, State(s.rows, s.files, 0, 0, []), before)
  {
  }
}
