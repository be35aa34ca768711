/** The process-local fixed-window limiter: a dictionary of windows beside a queue of
    their expiry times. */
module RateLimit {
  import opened Hashing

  datatype Window = Window(expiresAt: real, count: nat)

  type Windows = map<string, Window>

  // ----- the plain map of windows -----

  function Unexpired(windows: Windows, now: real): Windows {
    map k | k in windows && windows[k].expiresAt > now :: windows[k]
  }

  function Ceil(x: real): int { -((-x).Floor) }

  /** Whole seconds to wait, at least one. */
  function RetryAfter(expiresAt: real, now: real): int {
    var wait := Ceil(expiresAt - now);
    if wait < 1 then 1 else wait
  }

  lemma WaitingIsEnough(expiresAt: real, now: real)
    ensures now + RetryAfter(expiresAt, now) as real >= expiresAt && RetryAfter(expiresAt, now) >= 1
  {
  }

  predicate Saturated(windows: Windows, key: string, maxKeys: int) {
    key !in windows && |windows| >= maxKeys
  }

  function OpenWindow(windows: Windows, key: string, now: real, windowSeconds: int): Window {
    if key in windows then windows[key] else Window(now + windowSeconds as real, 0)
  }

  /** The windows after one hit. */
  function AfterHit(windows: Windows, key: string, now: real, windowSeconds: int, maxKeys: int): Windows {
    var live := Unexpired(windows, now);
    if Saturated(live, key, maxKeys) then live
    else
      var w := OpenWindow(live, key, now, windowSeconds);
      live[key := w.(count := w.count + 1)]
  }

  /** The hit is let through. */
  predicate Admitted(windows: Windows, key: string, limit: nat, now: real, windowSeconds: int, maxKeys: int) {
    var live := Unexpired(windows, now);
    !Saturated(live, key, maxKeys) && OpenWindow(live, key, now, windowSeconds).count < limit
  }

  // ----- the queue beside it -----

  datatype Expiry = Expiry(at: real, key: string)

  predicate Sorted(q: seq<Expiry>) {
    forall i, j :: 0 <= i < j < |q| ==> q[i].at <= q[j].at
  }

  /** Push keeps the earliest expiry in front, as the heap does. */
  function Push(q: seq<Expiry>, e: Expiry): seq<Expiry> {
    if q == [] || e.at <= q[0].at then [e] + q else [q[0]] + Push(q[1..], e)
  }

  predicate KeysDistinct(q: seq<Expiry>) {
    forall i, j :: 0 <= i < j < |q| ==> q[i].key != q[j].key
  }

  /** Where Push puts the entry. */
  function Place(q: seq<Expiry>, at: real): (n: nat)
    ensures n <= |q|
  {
    if q == [] || at <= q[0].at then 0 else 1 + Place(q[1..], at)
  }

  lemma {:induction false} PushAt(q: seq<Expiry>, e: Expiry)
    ensures Push(q, e) == q[..Place(q, e.at)] + [e] + q[Place(q, e.at)..]
  {
    if q != [] && e.at > q[0].at {
      PushAt(q[1..], e);
    }
  }

  lemma {:induction false} PlaceSplits(q: seq<Expiry>, at: real)
    requires Sorted(q)
    ensures forall i :: 0 <= i < Place(q, at) ==> q[i].at < at
    ensures forall i :: Place(q, at) <= i < |q| ==> at <= q[i].at
  {
    if q != [] && at > q[0].at {
      PlaceSplits(q[1..], at);
      forall i | 0 < i < Place(q, at)
        ensures q[i].at < at
      {
        assert q[i] == q[1..][i - 1];
      }
      forall i | Place(q, at) <= i < |q|
        ensures at <= q[i].at
      {
        assert q[i] == q[1..][i - 1];
      }
    }
  }

  lemma PushKeepsQueue(q: seq<Expiry>, e: Expiry)
    requires Sorted(q) && KeysDistinct(q) && forall i :: 0 <= i < |q| ==> q[i].key != e.key
    ensures Sorted(Push(q, e)) && KeysDistinct(Push(q, e)) && |Push(q, e)| == |q| + 1
    ensures forall x :: x in Push(q, e) <==> x in q || x == e
  {
    hide Place, Push;
    var n := Place(q, e.at);
    PushAt(q, e);
    PlaceSplits(q, e.at);
    assert q == q[..n] + q[n..];
  }

  /** Queue entries and windows are in one-to-one correspondence. */
  predicate Corresponds(q: seq<Expiry>, windows: Windows) {
    && |q| == |windows|
    && KeysDistinct(q)
    && (forall e :: e in q ==> e.key in windows && windows[e.key].expiresAt == e.at)
    && (forall k :: k in windows ==> Expiry(windows[k].expiresAt, k) in q)
  }

  lemma RestOfQueue(q: seq<Expiry>, e: Expiry)
    requires q != [] && KeysDistinct(q)
    ensures KeysDistinct(q[1..])
    ensures e in q[1..] <==> e in q && e != q[0]
    ensures e in q[1..] ==> e.key != q[0].key
  {
    if e in q[1..] {
      var j :| 0 <= j < |q[1..]| && q[1..][j] == e;
      assert q[j + 1] == e;
    }
    if e in q && e != q[0] {
      var j :| 0 <= j < |q| && q[j] == e;
      assert q[1..][j - 1] == e;
    }
  }

  lemma PopCorresponds(q: seq<Expiry>, windows: Windows)
    requires q != [] && Corresponds(q, windows)
    ensures Corresponds(q[1..], windows - {q[0].key})
  {
    hide KeysDistinct;
    var k := q[0].key;
    var rest := windows - {k};
    assert q[0] in q && k in windows;
    assert rest.Keys == windows.Keys - {k};
    RestOfQueue(q, q[0]);
    forall e | e in q[1..]
      ensures e.key in rest && rest[e.key].expiresAt == e.at
    {
      RestOfQueue(q, e);
    }
    forall l | l in rest
      ensures Expiry(rest[l].expiresAt, l) in q[1..]
    {
      RestOfQueue(q, Expiry(windows[l].expiresAt, l));
    }
  }

  lemma PushCorresponds(q: seq<Expiry>, windows: Windows, key: string, w: Window)
    requires Sorted(q) && Corresponds(q, windows) && key !in windows
    ensures Sorted(Push(q, Expiry(w.expiresAt, key))) && Corresponds(Push(q, Expiry(w.expiresAt, key)), windows[key := w])
  {
    hide Push;
    forall i | 0 <= i < |q|
      ensures q[i].key != key
    {
      assert q[i] in q;
    }
    PushKeepsQueue(q, Expiry(w.expiresAt, key));
    assert windows[key := w].Keys == windows.Keys + {key};
  }

  lemma CountCorresponds(q: seq<Expiry>, windows: Windows, key: string, count: nat)
    requires Corresponds(q, windows) && key in windows
    ensures Corresponds(q, windows[key := windows[key].(count := count)])
  {
    assert windows[key := windows[key].(count := count)].Keys == windows.Keys;
  }

  /** Popping an expired front leaves the same unexpired windows. */
  lemma PopUnexpired(q: seq<Expiry>, windows: Windows, now: real)
    requires q != [] && Corresponds(q, windows) && q[0].at <= now
    ensures Unexpired(windows - {q[0].key}, now) == Unexpired(windows, now)
  {
    assert q[0] in q;
  }

  lemma NothingExpired(q: seq<Expiry>, windows: Windows, now: real)
    requires Sorted(q) && Corresponds(q, windows) && (q == [] || q[0].at > now)
    ensures Unexpired(windows, now) == windows
  {
    forall k | k in windows
      ensures windows[k].expiresAt > now
    {
      var e := Expiry(windows[k].expiresAt, k);
      var i :| 0 <= i < |q| && q[i] == e;
      assert q[0].at <= q[i].at;
    }
  }

  /** No window expires before this one. */
  ghost predicate Earliest(windows: Windows, key: string) {
    key in windows && forall k :: k in windows ==> windows[key].expiresAt <= windows[k].expiresAt
  }

  class Limiter {
    const maxKeys: int
    var windows: Windows
    var expiries: seq<Expiry>

    ghost predicate Valid()
      reads this
    {
      Sorted(expiries) && Corresponds(expiries, windows) && (|windows| == 0 || |windows| <= maxKeys)
    }

    constructor (maxKeys: int)
      ensures Valid() && this.maxKeys == maxKeys && windows == map[]
    {
      this.maxKeys := maxKeys;
      windows, expiries := map[], [];
    }

    /** Removes exactly the expired windows. */
    method Purge(now: real)
      requires Valid()
      modifies this
      ensures Valid() && windows == Unexpired(old(windows), now)
    {
      hide Corresponds, Unexpired;
      ghost var before := windows;
      while expiries != [] && expiries[0].at <= now
        invariant Valid() && Unexpired(windows, now) == Unexpired(before, now)
        decreases |expiries|
      {
        var e := expiries[0];
        PopUnexpired(expiries, windows, now);
        PopCorresponds(expiries, windows);
        FrontEntry(expiries, windows);
        expiries := expiries[1..];
        if e.key in windows && windows[e.key].expiresAt == e.at {
          windows := windows - {e.key};
        }
      }
      NothingExpired(expiries, windows, now);
    }

    /** One hit: none if let through, otherwise how long to wait. */
    method Hit(key: string, limit: nat, windowSeconds: int, now: real) returns (retry: Option<int>)
      requires Valid() && 0 < windowSeconds
      modifies this
      ensures Valid() && windows == AfterHit(old(windows), key, now, windowSeconds, maxKeys)
      ensures retry.None? <==> Admitted(old(windows), key, limit, now, windowSeconds, maxKeys)
      ensures retry.Some? ==> retry.value >= 1
      ensures retry.Some? && key in windows ==> now + retry.value as real >= windows[key].expiresAt
      ensures retry.Some? && key !in windows && windows != map[] ==> exists k :: Earliest(windows, k) && now + retry.value as real >= windows[k].expiresAt
    {
      hide Corresponds, Unexpired, Push;
      Purge(now);
      if key !in windows {
        if |windows| >= maxKeys {
          var next := if expiries != [] then expiries[0].at else now + windowSeconds as real;
          WaitingIsEnough(next, now);
          if expiries != [] { FrontIsEarliest(expiries, windows); } else { EmptyQueue(windows); }
          return Some(RetryAfter(next, now));
        }
        var opening := Window(now + windowSeconds as real, 0);
        PushCorresponds(expiries, windows, key, opening);
        GrowsByOne(windows, key, opening);
        windows := windows[key := opening];
        expiries := Push(expiries, Expiry(opening.expiresAt, key));
      }
      var w := windows[key];
      var count := w.count + 1;
      CountCorresponds(expiries, windows, key, count);
      SameSize(windows, key, w.(count := count));
      windows := windows[key := w.(count := count)];
      WaitingIsEnough(w.expiresAt, now);
      retry := if count > limit then Some(RetryAfter(w.expiresAt, now)) else None;
    }
  }

  lemma FrontIsEarliest(q: seq<Expiry>, windows: Windows)
    requires q != [] && Sorted(q) && Corresponds(q, windows)
    ensures Earliest(windows, q[0].key) && windows[q[0].key].expiresAt == q[0].at
  {
    assert q[0] in q;
    forall k | k in windows
      ensures q[0].at <= windows[k].expiresAt
    {
      var i :| 0 <= i < |q| && q[i] == Expiry(windows[k].expiresAt, k);
    }
  }

  lemma EmptyQueue(windows: Windows)
    requires Corresponds([], windows)
    ensures windows == map[]
  {
  }

  lemma FrontEntry(q: seq<Expiry>, windows: Windows)
    requires q != [] && Corresponds(q, windows)
    ensures q[0].key in windows && windows[q[0].key].expiresAt == q[0].at && |windows - {q[0].key}| < |windows|
  {
    assert q[0] in q;
    assert (windows - {q[0].key}).Keys == windows.Keys - {q[0].key};
  }

  lemma GrowsByOne(windows: Windows, key: string, w: Window)
    requires key !in windows
    ensures |windows[key := w]| == |windows| + 1
  {
    assert windows[key := w].Keys == windows.Keys + {key};
  }

  lemma SameSize(windows: Windows, key: string, w: Window)
    requires key in windows
    ensures |windows[key := w]| == |windows|
  {
    assert windows[key := w].Keys == windows.Keys;
  }

  // ----- how many hits get through -----

  datatype HitAt = HitAt(key: string, limit: nat, windowSeconds: int, now: real)

  /** Hits in the order the lock lets them in, on a clock that never goes back. */
  predicate InOrder(hits: seq<HitAt>) {
    forall i, j :: 0 <= i < j < |hits| ==> hits[i].now <= hits[j].now
  }

  /** The key is always used with the same limit and window. */
  predicate FixedPolicy(hits: seq<HitAt>, key: string, limit: nat, windowSeconds: int) {
    forall i :: 0 <= i < |hits| && hits[i].key == key ==> hits[i].limit == limit && hits[i].windowSeconds == windowSeconds
  }

  function WindowsAfter(hits: seq<HitAt>, maxKeys: int): Windows {
    if hits == [] then map[] else
      var h := hits[|hits| - 1];
      AfterHit(WindowsAfter(hits[..|hits| - 1], maxKeys), h.key, h.now, h.windowSeconds, maxKeys)
  }

  /** When a hit was let through and when its window was opened. */
  datatype Admission = Admission(time: real, openedAt: real)

  function Admissions(hits: seq<HitAt>, key: string, maxKeys: int): seq<Admission> {
    if hits == [] then [] else
      var front, h := hits[..|hits| - 1], hits[|hits| - 1];
      var windows := WindowsAfter(front, maxKeys);
      Admissions(front, key, maxKeys)
      + (if h.key == key && Admitted(windows, key, h.limit, h.now, h.windowSeconds, maxKeys)
         then [Admission(h.now, OpenWindow(Unexpired(windows, h.now), key, h.now, h.windowSeconds).expiresAt - h.windowSeconds as real)]
         else [])
  }

  /** Admissions fall in their windows, windows do not overlap, and none admits more than the limit. */
  predicate Spaced(a: seq<Admission>, limit: nat, w: real) {
    && (forall i :: 0 <= i < |a| ==> a[i].openedAt <= a[i].time < a[i].openedAt + w)
    && (forall i, j :: 0 <= i < j < |a| ==> a[i].openedAt <= a[j].openedAt)
    && (forall i :: 0 <= i && i + limit < |a| ==> a[i].openedAt + w <= a[i + limit].openedAt)
  }

  function Least(a: nat, b: nat): nat { if a <= b then a else b }

  /** The admissions recorded so far against the key's current window, if it has one. */
  predicate Tracks(a: seq<Admission>, windows: Windows, key: string, limit: nat, w: real, clock: real) {
    if key in windows then
      var opening, n := windows[key].expiresAt - w, Least(windows[key].count, limit);
      && opening <= clock && n <= |a|
      && (forall i :: 0 <= i < |a| - n ==> a[i].openedAt + w <= opening)
      && (forall i :: |a| - n <= i < |a| ==> a[i].openedAt == opening)
    else forall i :: 0 <= i < |a| ==> a[i].openedAt + w <= clock
  }

  /** Purging: an expired window's admissions lie a whole window back. */
  lemma PurgeTracks(a: seq<Admission>, windows: Windows, key: string, limit: nat, w: real, clock: real, now: real)
    requires Tracks(a, windows, key, limit, w, clock) && clock <= now && 0.0 < w
    ensures Tracks(a, Unexpired(windows, now), key, limit, w, now)
  {
  }

  lemma AdmittedStaysSpaced(a: seq<Admission>, limit: nat, w: real, n: nat, last: Admission)
    requires Spaced(a, limit, w) && n < limit && n <= |a|
    requires last.openedAt <= last.time < last.openedAt + w
    requires forall i :: 0 <= i < |a| - n ==> a[i].openedAt + w <= last.openedAt
    requires forall i :: 0 <= i < |a| ==> a[i].openedAt <= last.openedAt
    ensures Spaced(a + [last], limit, w)
  {
  }

  /** Letting one hit through, or refusing it, keeps both. */
  lemma HitTracks(a: seq<Admission>, live: Windows, key: string, limit: nat, w: real, now: real, opening: Window, a': seq<Admission>)
    requires 0.0 < w && Spaced(a, limit, w) && Tracks(a, live, key, limit, w, now)
    requires opening == if key in live then live[key] else Window(now + w, 0)
    requires key in live ==> live[key].expiresAt > now
    requires a' == if opening.count < limit then a + [Admission(now, opening.expiresAt - w)] else a
    ensures Spaced(a', limit, w) && Tracks(a', live[key := opening.(count := opening.count + 1)], key, limit, w, now)
  {
    hide Spaced;
    if opening.count < limit {
      AdmittedStaysSpaced(a, limit, w, opening.count, Admission(now, opening.expiresAt - w));
    }
  }

  lemma {:induction false} RunTracks(hits: seq<HitAt>, key: string, limit: nat, windowSeconds: int, maxKeys: int, clock: real)
    requires 0 < windowSeconds && InOrder(hits) && FixedPolicy(hits, key, limit, windowSeconds)
    requires forall i :: 0 <= i < |hits| ==> hits[i].now <= clock
    ensures var a, w := Admissions(hits, key, maxKeys), windowSeconds as real;
            Spaced(a, limit, w) && Tracks(a, WindowsAfter(hits, maxKeys), key, limit, w, clock)
  {
    hide Spaced, Tracks, Unexpired;
    var w := windowSeconds as real;
    if hits == [] {
      NothingTracked(key, limit, w, clock);
    } else {
      var front, h := hits[..|hits| - 1], hits[|hits| - 1];
      RunTracks(front, key, limit, windowSeconds, maxKeys, h.now);
      var a, windows := Admissions(front, key, maxKeys), WindowsAfter(front, maxKeys);
      var live := Unexpired(windows, h.now);
      PurgeTracks(a, windows, key, limit, w, h.now, h.now);
      var after := WindowsAfter(hits, maxKeys);
      if h.key == key && !Saturated(live, key, maxKeys) {
        LiveWindow(windows, key, h.now);
        HitTracks(a, live, key, limit, w, h.now, OpenWindow(live, key, h.now, windowSeconds), Admissions(hits, key, maxKeys));
      } else {
        OtherKeyTracks(a, live, after, key, limit, w, h.now);
        assert a + [] == a;
      }
      LaterTracks(Admissions(hits, key, maxKeys), after, key, limit, w, h.now, clock);
    }
  }

  lemma NothingTracked(key: string, limit: nat, w: real, clock: real)
    ensures Spaced([], limit, w) && Tracks([], map[], key, limit, w, clock)
  {
  }

  lemma LiveWindow(windows: Windows, key: string, now: real)
    ensures key in Unexpired(windows, now) ==> Unexpired(windows, now)[key].expiresAt > now
  {
  }

  lemma OtherKeyTracks(a: seq<Admission>, live: Windows, after: Windows, key: string, limit: nat, w: real, now: real)
    requires Tracks(a, live, key, limit, w, now)
    requires (key in live <==> key in after) && (key in live ==> live[key] == after[key])
    ensures Tracks(a, after, key, limit, w, now)
  {
  }

  lemma LaterTracks(a: seq<Admission>, windows: Windows, key: string, limit: nat, w: real, now: real, clock: real)
    requires Tracks(a, windows, key, limit, w, now) && now <= clock
    ensures Tracks(a, windows, key, limit, w, clock)
  {
  }

  lemma FarApart(a: seq<Admission>, limit: nat, w: real, i: nat, j: nat)
    requires 0 < limit && Spaced(a, limit, w) && i + 2 * limit <= j < |a|
    ensures a[j].time - a[i].time > w
  {
    var m, n := i + limit, i + 2 * limit;
    assert a[i].openedAt + w <= a[m].openedAt && a[m].openedAt + w <= a[m + limit].openedAt;
    assert n == m + limit && a[n].openedAt <= a[j].openedAt;
  }

  function LastTime(hits: seq<HitAt>): (t: real)
    requires InOrder(hits)
    ensures forall i :: 0 <= i < |hits| ==> hits[i].now <= t
  {
    if hits == [] then 0.0 else hits[|hits| - 1].now
  }

  /** No interval one window long holds more than twice the limit of admissions of a key. */
  lemma AtMostTwiceTheLimit(hits: seq<HitAt>, key: string, limit: nat, windowSeconds: int, maxKeys: int, i: nat, j: nat)
    requires 0 < windowSeconds && 0 < limit && InOrder(hits) && FixedPolicy(hits, key, limit, windowSeconds)
    requires i <= j < |Admissions(hits, key, maxKeys)|
    requires var a := Admissions(hits, key, maxKeys); a[j].time - a[i].time <= windowSeconds as real
    ensures j - i + 1 <= 2 * limit
  {
    hide Admissions, Tracks, Spaced;
    RunTracks(hits, key, limit, windowSeconds, maxKeys, LastTime(hits));
    if i + 2 * limit <= j {
      FarApart(Admissions(hits, key, maxKeys), limit, windowSeconds as real, i, j);
    }
  }

  /** A limit of zero lets nothing through. */
  lemma {:induction false} NothingThroughAtZero(hits: seq<HitAt>, key: string, windowSeconds: int, maxKeys: int)
    requires FixedPolicy(hits, key, 0, windowSeconds)
    ensures Admissions(hits, key, maxKeys) == []
  {
    if hits != [] {
      NothingThroughAtZero(hits[..|hits| - 1], key, windowSeconds, maxKeys);
    }
  }

  // ----- the bound is attained -----

  /** `n` hits of the key at one moment. */
  function Burst(key: string, limit: nat, windowSeconds: int, now: real, n: nat): seq<HitAt> {
    if n == 0 then [] else Burst(key, limit, windowSeconds, now, n - 1) + [HitAt(key, limit, windowSeconds, now)]
  }

  /** `limit` hits when a window opens and `limit` more the moment it has passed. */
  function TwoBursts(key: string, limit: nat, windowSeconds: int, n: nat): seq<HitAt> {
    if n == 0 then Burst(key, limit, windowSeconds, 0.0, limit)
    else TwoBursts(key, limit, windowSeconds, n - 1) + [HitAt(key, limit, windowSeconds, windowSeconds as real)]
  }

  lemma LastHit(hits: seq<HitAt>, h: HitAt, key: string, maxKeys: int)
    ensures var windows := WindowsAfter(hits, maxKeys);
            && WindowsAfter(hits + [h], maxKeys) == AfterHit(windows, h.key, h.now, h.windowSeconds, maxKeys)
            && (h.key == key && Admitted(windows, key, h.limit, h.now, h.windowSeconds, maxKeys) ==>
                  |Admissions(hits + [h], key, maxKeys)| == |Admissions(hits, key, maxKeys)| + 1
                  && Admissions(hits, key, maxKeys) <= Admissions(hits + [h], key, maxKeys)
                  && Admissions(hits + [h], key, maxKeys)[|Admissions(hits, key, maxKeys)|].time == h.now)
  {
    assert (hits + [h])[..|hits|] == hits;
  }

  /** One more hit in the key's only window. */
  lemma CountsUp(key: string, w: Window, now: real, windowSeconds: int, maxKeys: int)
    requires now < w.expiresAt && 1 <= maxKeys
    ensures var windows := map[key := w];
            && AfterHit(windows, key, now, windowSeconds, maxKeys) == map[key := w.(count := w.count + 1)]
            && (forall limit :: Admitted(windows, key, limit, now, windowSeconds, maxKeys) <==> w.count < limit)
  {
    assert Unexpired(map[key := w], now) == map[key := w];
  }

  /** The key's only window has passed, or it has none: a new one opens. */
  lemma OpensNew(windows: Windows, key: string, now: real, windowSeconds: int, maxKeys: int)
    requires 1 <= maxKeys && forall k :: k in windows ==> windows[k].expiresAt <= now
    ensures && AfterHit(windows, key, now, windowSeconds, maxKeys) == map[key := Window(now + windowSeconds as real, 1)]
            && (forall limit :: Admitted(windows, key, limit, now, windowSeconds, maxKeys) <==> 0 < limit)
  {
    assert Unexpired(windows, now) == map[];
  }

  lemma {:induction false} FirstBurst(key: string, limit: nat, windowSeconds: int, maxKeys: int, n: nat)
    requires 0 < n <= limit && 0 < windowSeconds && 1 <= maxKeys
    ensures var hits := Burst(key, limit, windowSeconds, 0.0, n);
            && WindowsAfter(hits, maxKeys) == map[key := Window(windowSeconds as real, n)]
            && |Admissions(hits, key, maxKeys)| == n && Admissions(hits, key, maxKeys)[0].time == 0.0
  {
    hide Admissions, WindowsAfter, AfterHit, Admitted;
    var h := HitAt(key, limit, windowSeconds, 0.0);
    var front := Burst(key, limit, windowSeconds, 0.0, n - 1);
    LastHit(front, h, key, maxKeys);
    if n == 1 {
      NoHits(key, maxKeys);
      OpensNew(map[], key, 0.0, windowSeconds, maxKeys);
    } else {
      FirstBurst(key, limit, windowSeconds, maxKeys, n - 1);
      CountsUp(key, Window(windowSeconds as real, n - 1), 0.0, windowSeconds, maxKeys);
    }
  }

  lemma NoHits(key: string, maxKeys: int)
    ensures WindowsAfter([], maxKeys) == map[] && Admissions([], key, maxKeys) == []
  {
  }

  lemma {:induction false} SecondBurst(key: string, limit: nat, windowSeconds: int, maxKeys: int, n: nat)
    requires 0 < limit && 0 < n <= limit && 0 < windowSeconds && 1 <= maxKeys
    ensures var hits, a := TwoBursts(key, limit, windowSeconds, n), Admissions(TwoBursts(key, limit, windowSeconds, n), key, maxKeys);
            && WindowsAfter(hits, maxKeys) == map[key := Window(2.0 * windowSeconds as real, n)]
            && |a| == limit + n && a[0].time == 0.0 && a[limit + n - 1].time == windowSeconds as real
  {
    hide Admissions, WindowsAfter, AfterHit, Admitted, Burst;
    var now := windowSeconds as real;
    var h := HitAt(key, limit, windowSeconds, now);
    var front := TwoBursts(key, limit, windowSeconds, n - 1);
    LastHit(front, h, key, maxKeys);
    if n == 1 {
      FirstBurst(key, limit, windowSeconds, maxKeys, limit);
      OpensNew(map[key := Window(now, limit)], key, now, windowSeconds, maxKeys);
    } else {
      SecondBurst(key, limit, windowSeconds, maxKeys, n - 1);
      CountsUp(key, Window(2.0 * now, n - 1), now, windowSeconds, maxKeys);
    }
  }

  lemma {:induction false} BurstHits(key: string, limit: nat, windowSeconds: int, now: real, n: nat)
    ensures forall h :: h in Burst(key, limit, windowSeconds, now, n) ==> h == HitAt(key, limit, windowSeconds, now)
  {
    if n > 0 {
      BurstHits(key, limit, windowSeconds, now, n - 1);
    }
  }

  lemma {:induction false} BurstsInOrder(key: string, limit: nat, windowSeconds: int, n: nat)
    requires 0 < windowSeconds
    ensures var hits := TwoBursts(key, limit, windowSeconds, n);
            && InOrder(hits) && FixedPolicy(hits, key, limit, windowSeconds)
            && forall i :: 0 <= i < |hits| ==> hits[i].now <= windowSeconds as real
  {
    if n == 0 {
      BurstHits(key, limit, windowSeconds, 0.0, limit);
      hide Burst;
      var hits := Burst(key, limit, windowSeconds, 0.0, limit);
      assert forall i :: 0 <= i < |hits| ==> hits[i] in hits;
    } else {
      BurstsInOrder(key, limit, windowSeconds, n - 1);
    }
  }

  /** Twice the limit does get through within one window's length, in a run the bound is about. */
  lemma TwiceTheLimitAttained(key: string, limit: nat, windowSeconds: int, maxKeys: int)
    requires 0 < limit && 0 < windowSeconds && 1 <= maxKeys
    ensures var hits := TwoBursts(key, limit, windowSeconds, limit);
            var a := Admissions(hits, key, maxKeys);
            && InOrder(hits) && FixedPolicy(hits, key, limit, windowSeconds)
            && |a| == 2 * limit && a[|a| - 1].time - a[0].time == windowSeconds as real
  {
    hide Admissions, TwoBursts, InOrder, FixedPolicy;
    BurstsInOrder(key, limit, windowSeconds, limit);
    SecondBurst(key, limit, windowSeconds, maxKeys, limit);
  }
}
