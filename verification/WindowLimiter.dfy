// pkg/middleware/ratelimit.go: one token bucket per key, all of them wiped every ten minutes.

/** A request finds its bucket under the limiter's lock and draws from it under the bucket's own, so
    a wipe can come in between and leave it drawing from a bucket nobody else will find: a stale one. */
module WindowLimiter {
  import opened TokenBuckets

  /** A bucket object, and the key it was made for. */
  datatype Owned = Owned(key: Name, bucket: Bucket)

  /** `buckets` maps keys to bucket objects, and `calls` the requests under way to the one they found. */
  datatype Limiter = Limiter(buckets: map<Name, nat>, heap: seq<Owned>, calls: map<nat, nat>, cleanup: real)

  /** getBucket, then Allow's or Remaining's look at the bucket found. */
  datatype Act = Find(call: nat, key: Name) | Take(call: nat) | Look(call: nat)

  datatype Event = Event(act: Act, now: real)

  const PERIOD := 600.0

  function New(now: real): Limiter {
    Limiter(map[], [], map[], now)
  }

  predicate Wipes(l: Limiter, e: Event) {
    e.act.Find? && e.now - l.cleanup > PERIOD
  }

  function Swept(l: Limiter, now: real): Limiter {
    if now - l.cleanup > PERIOD then l.(buckets := map[], cleanup := now) else l
  }

  function FindStep(l: Limiter, limit: Limit, c: nat, key: Name, now: real): Limiter {
    var s := Swept(l, now);
    if key in s.buckets then s.(calls := s.calls[c := s.buckets[key]])
    else Limiter(s.buckets[key := |s.heap|], s.heap + [Owned(key, Full(limit, now))], s.calls[c := |s.heap|], s.cleanup)
  }

  /** Buckets are on the heap under their own key. */
  predicate Linked(l: Limiter) {
    && (forall k :: k in l.buckets ==> l.buckets[k] < |l.heap| && l.heap[l.buckets[k]].key == k)
    && (forall c :: c in l.calls ==> l.calls[c] < |l.heap|)
  }

  predicate Enabled(l: Limiter, a: Act) {
    if a.Find? then a.call !in l.calls else a.call in l.calls
  }

  function Held(l: Limiter, c: nat): Owned
    requires Linked(l) && c in l.calls
  {
    l.heap[l.calls[c]]
  }

  function TakeStep(l: Limiter, c: nat, now: real): Limiter
    requires Linked(l) && c in l.calls
  {
    var o := Held(l, c);
    l.(heap := l.heap[l.calls[c] := o.(bucket := Draw(o.bucket, now).bucket)], calls := l.calls - {c})
  }

  function Step(l: Limiter, limit: Limit, e: Event): (r: Limiter)
    requires Linked(l) && Enabled(l, e.act)
    ensures Linked(r)
  {
    match e.act
    case Find(c, key) => FindStep(l, limit, c, key, e.now)
    case Take(c) => TakeStep(l, c, e.now)
    case Look(c) => l.(calls := l.calls - {c})
  }

  /** The event lets a request for `key` through. */
  predicate Admits(l: Limiter, e: Event, key: Name)
    requires Linked(l) && Enabled(l, e.act)
  {
    e.act.Take? && Held(l, e.act.call).key == key && Draw(Held(l, e.act.call).bucket, e.now).allowed
  }

  /** The request holds a bucket that a wipe has discarded. */
  predicate Stale(l: Limiter, c: nat)
    requires Linked(l) && c in l.calls
  {
    var key := Held(l, c).key;
    !(key in l.buckets && l.buckets[key] == l.calls[c])
  }

  function EndTime(es: seq<Event>, start: real): real {
    if |es| == 0 then start else es[|es| - 1].now
  }

  /** Requests find before they draw, and the clock, from `start`, does not go back. */
  predicate Runs(l: Limiter, limit: Limit, es: seq<Event>, start: real)
    requires Linked(l)
    decreases |es|, 0
  {
    |es| > 0 ==>
      && Runs(l, limit, es[..|es| - 1], start)
      && Enabled(After(l, limit, es[..|es| - 1], start), es[|es| - 1].act)
      && EndTime(es[..|es| - 1], start) <= es[|es| - 1].now
  }

  function After(l: Limiter, limit: Limit, es: seq<Event>, start: real): (r: Limiter)
    requires Linked(l) && Runs(l, limit, es, start)
    ensures Linked(r)
    decreases |es|, 1
  {
    if |es| == 0 then l else Step(After(l, limit, es[..|es| - 1], start), limit, es[|es| - 1])
  }

  /** What a stretch of a run did for one key. */
  datatype Tally = Tally(admitted: nat, stale: nat, wipes: nat)

  function Tallied(l: Limiter, t: Tally, e: Event, key: Name): Tally
    requires Linked(l) && Enabled(l, e.act)
  {
    Tally(t.admitted + if Admits(l, e, key) then 1 else 0,
          t.stale + if Admits(l, e, key) && Stale(l, e.act.call) then 1 else 0,
          t.wipes + if Wipes(l, e) then 1 else 0)
  }

  function Counted(l: Limiter, limit: Limit, es: seq<Event>, start: real, key: Name): Tally
    requires Linked(l) && Runs(l, limit, es, start)
    decreases |es|
  {
    if |es| == 0 then Tally(0, 0, 0)
    else
      var front := es[..|es| - 1];
      Tallied(After(l, limit, front, start), Counted(l, limit, front, start, key), es[|es| - 1], key)
  }

  predicate Proper(b: Bucket, limit: Limit, now: real) {
    && b.maxTokens == limit.burstSize as real && b.refillRate == Rate(limit)
    && 0.0 <= b.tokens <= b.maxTokens && b.lastUpdate <= now
  }

  /** A limiter as any run leaves it by time `now`. */
  predicate Sound(l: Limiter, limit: Limit, now: real) {
    Linked(l) && l.cleanup <= now && forall i :: 0 <= i < |l.heap| ==> Proper(l.heap[i].bucket, limit, now)
  }

  function Rate(limit: Limit): real {
    limit.requestsPerMin as real / 60.0
  }

  /** The tokens a new request for `key` would find at `now` if nothing were wiped. */
  function Available(l: Limiter, limit: Limit, key: Name, now: real): real
    requires Linked(l)
  {
    if key in l.buckets then Refilled(l.heap[l.buckets[key]].bucket, now).tokens else limit.burstSize as real
  }

  predicate Sensible(limit: Limit) {
    limit.burstSize >= 0 && limit.requestsPerMin >= 0
  }

  lemma DrawProper(b: Bucket, limit: Limit, now: real)
    requires Sensible(limit) && Proper(b, limit, now)
    ensures Proper(Draw(b, now).bucket, limit, now)
  {
    Earns(b, now);
    assert Refilled(b, now).tokens <= b.maxTokens;
  }

  lemma StepSound(l: Limiter, limit: Limit, e: Event, before: real)
    requires Sensible(limit) && Sound(l, limit, before) && Enabled(l, e.act) && before <= e.now
    ensures Sound(Step(l, limit, e), limit, e.now)
  {
    if e.act.Take? {
      DrawProper(Held(l, e.act.call).bucket, limit, e.now);
    }
  }

  /** Between two instants a bucket gains at most the rate times the time between them. */
  lemma AvailableLater(l: Limiter, limit: Limit, key: Name, before: real, now: real)
    requires Sensible(limit) && Sound(l, limit, before) && before <= now
    ensures 0.0 <= Available(l, limit, key, now) <= Available(l, limit, key, before) + Earned(now - before, Rate(limit))
    ensures Available(l, limit, key, now) <= limit.burstSize as real
  {
    Grows(0.0, now - before, Rate(limit));
    if key in l.buckets {
      var b := l.heap[l.buckets[key]].bucket;
      Earns(b, now);
      EarnedMore(before - b.lastUpdate, now - before, Rate(limit));
      assert (before - b.lastUpdate) + (now - before) == now - b.lastUpdate;
    }
  }

  lemma FindAvailable(l: Limiter, limit: Limit, c: nat, key: Name, now: real, other: Name)
    requires Linked(l)
    ensures Linked(FindStep(l, limit, c, key, now))
    ensures Available(FindStep(l, limit, c, key, now), limit, other, now)
            == if now - l.cleanup > PERIOD then limit.burstSize as real else Available(l, limit, other, now)
  {
    DrawnNow(Full(limit, now), now);
  }

  /** An event leaves the tokens it found, or a full bucket if it wiped, less one if a request was let
      through on the key's current bucket. */
  lemma StepAvailable(l: Limiter, limit: Limit, e: Event, key: Name)
    requires Linked(l) && Enabled(l, e.act)
    ensures Available(Step(l, limit, e), limit, key, e.now)
            + (if Admits(l, e, key) && !Stale(l, e.act.call) then 1.0 else 0.0)
            == if Wipes(l, e) then limit.burstSize as real else Available(l, limit, key, e.now)
  {
    if e.act.Find? {
      FindAvailable(l, limit, e.act.call, e.act.key, e.now, key);
    } else if e.act.Take? {
      DrawnNow(Held(l, e.act.call).bucket, e.now);
    }
  }

  function Bound(limit: Limit, wipes: nat, time: real): real {
    Earned((wipes + 1) as real, limit.burstSize as real) + Earned(time, Rate(limit))
  }

  lemma BoundGrows(limit: Limit, wipes: nat, time: real, more: real)
    requires Sensible(limit) && more >= 0.0
    ensures Bound(limit, wipes, time + more) == Bound(limit, wipes, time) + Earned(more, Rate(limit))
    ensures Bound(limit, wipes + 1, time + more) >= Bound(limit, wipes, time) + limit.burstSize as real
  {
    EarnedMore(time, more, Rate(limit));
    EarnedMore((wipes + 1) as real, 1.0, limit.burstSize as real);
    Grows(0.0, more, Rate(limit));
  }

  lemma {:induction false} RunSound(l: Limiter, limit: Limit, es: seq<Event>, start: real)
    requires Sensible(limit) && Sound(l, limit, start) && Runs(l, limit, es, start)
    ensures Sound(After(l, limit, es, start), limit, EndTime(es, start)) && start <= EndTime(es, start)
    decreases |es|
  {
    if |es| > 0 {
      var front := es[..|es| - 1];
      RunSound(l, limit, front, start);
      StepSound(After(l, limit, front, start), limit, es[|es| - 1], EndTime(front, start));
    }
  }

  /** Requests let through on current buckets, with the tokens left, are covered by the bound. */
  predicate Covered(l: Limiter, limit: Limit, key: Name, now: real, t: Tally, start: real)
    requires Linked(l)
  {
    (t.admitted - t.stale) as real + Available(l, limit, key, now) <= Bound(limit, t.wipes, now - start)
  }

  lemma PotentialStep(l: Limiter, limit: Limit, e: Event, key: Name, before: real, t: Tally, start: real)
    requires Sensible(limit) && Sound(l, limit, before) && Enabled(l, e.act) && start <= before <= e.now
    requires Covered(l, limit, key, before, t, start)
    ensures Covered(Step(l, limit, e), limit, key, e.now, Tallied(l, t, e, key), start)
  {
    AvailableLater(l, limit, key, before, e.now);
    AvailableLater(l, limit, key, before, before);
    StepAvailable(l, limit, e, key);
    BoundGrows(limit, t.wipes, before - start, e.now - before);
    assert (before - start) + (e.now - before) == e.now - start;
  }

  lemma PotentialStart(l: Limiter, limit: Limit, key: Name, start: real)
    requires Sensible(limit) && Sound(l, limit, start)
    ensures Covered(l, limit, key, start, Tally(0, 0, 0), start)
  {
    AvailableLater(l, limit, key, start, start);
    assert Earned(1.0, limit.burstSize as real) == limit.burstSize as real && Earned(start - start, Rate(limit)) == 0.0;
  }

  lemma {:induction false} Potential(l: Limiter, limit: Limit, es: seq<Event>, key: Name, start: real)
    requires Sensible(limit) && Sound(l, limit, start) && Runs(l, limit, es, start)
    ensures Covered(After(l, limit, es, start), limit, key, EndTime(es, start), Counted(l, limit, es, start, key), start)
    decreases |es|
  {
    if |es| == 0 {
      PotentialStart(l, limit, key, start);
    } else {
      var front, e := es[..|es| - 1], es[|es| - 1];
      Potential(l, limit, front, key, start);
      RunSound(l, limit, front, start);
      var mid := After(l, limit, front, start);
      PotentialStep(mid, limit, e, key, EndTime(front, start), Counted(l, limit, front, start, key), start);
    }
  }

  /** Two wipes are more than ten minutes apart. */
  lemma {:induction false} WipesApart(l: Limiter, limit: Limit, es: seq<Event>, start: real, key: Name)
    requires Linked(l) && Runs(l, limit, es, start)
    ensures var w, end := Counted(l, limit, es, start, key).wipes, After(l, limit, es, start).cleanup;
            start <= EndTime(es, start) &&
            if w == 0 then end == l.cleanup
            else start <= end <= EndTime(es, start) && (w - 1) as real * 600.0 <= end - start
    decreases |es|
  {
    if |es| > 0 {
      WipesApart(l, limit, es[..|es| - 1], start, key);
    }
  }

  /** No wipe comes while a request is between its two steps. */
  predicate Undisturbed(l: Limiter, limit: Limit, es: seq<Event>, start: real)
    requires Linked(l) && Runs(l, limit, es, start)
    decreases |es|
  {
    |es| > 0 ==>
      var front := es[..|es| - 1];
      Undisturbed(l, limit, front, start)
      && (Wipes(After(l, limit, front, start), es[|es| - 1]) ==> After(l, limit, front, start).calls == map[])
  }

  predicate NoneStale(l: Limiter)
    requires Linked(l)
  {
    forall c :: c in l.calls ==> !Stale(l, c)
  }

  /** Undisturbed, no request draws from a discarded bucket. */
  lemma {:induction false} StaleNeedsRace(l: Limiter, limit: Limit, es: seq<Event>, start: real, key: Name)
    requires Linked(l) && Runs(l, limit, es, start) && Undisturbed(l, limit, es, start) && NoneStale(l)
    ensures NoneStale(After(l, limit, es, start)) && Counted(l, limit, es, start, key).stale == 0
    decreases |es|
  {
    if |es| > 0 {
      var front, e := es[..|es| - 1], es[|es| - 1];
      StaleNeedsRace(l, limit, front, start, key);
      StepStale(After(l, limit, front, start), limit, e);
    }
  }

  lemma StepStale(l: Limiter, limit: Limit, e: Event)
    requires Linked(l) && Enabled(l, e.act) && NoneStale(l) && (Wipes(l, e) ==> l.calls == map[])
    ensures NoneStale(Step(l, limit, e))
  {
    var l' := Step(l, limit, e);
    forall c | c in l'.calls ensures !Stale(l', c) {
      assert c in l.calls ==> !Stale(l, c);
    }
  }

  /** In any window of any interleaving: a key is let through at most (w + 1) bursts plus what the rate
      allows, besides requests whose bucket was wiped between their two steps; in a window that no wipe
      disturbs, starting with no such request, there are none and the bound holds as it stands. */
  lemma WindowBound(limit: Limit, earlier: seq<Event>, window: seq<Event>, key: Name, born: real, start: real)
    requires Sensible(limit) && Runs(New(born), limit, earlier, born) && EndTime(earlier, born) <= start
    requires Runs(After(New(born), limit, earlier, born), limit, window, start)
    ensures var l := After(New(born), limit, earlier, born);
            var t, time := Counted(l, limit, window, start, key), EndTime(window, start) - start;
            && (t.admitted as real) <= Bound(limit, t.wipes, time) + t.stale as real
            && (t.wipes as real) <= time / 600.0 + 1.0
            && (Undisturbed(l, limit, window, start) && NoneStale(l) ==>
                  t.stale == 0 && (t.admitted as real) <= Bound(limit, t.wipes, time))
  {
    RunSound(New(born), limit, earlier, born);
    var l := After(New(born), limit, earlier, born);
    Potential(l, limit, window, key, start);
    WipesApart(l, limit, window, start, key);
    RunSound(l, limit, window, start);
    AvailableLater(After(l, limit, window, start), limit, key, EndTime(window, start), EndTime(window, start));
    if Undisturbed(l, limit, window, start) && NoneStale(l) {
      StaleNeedsRace(l, limit, window, start, key);
    }
  }

  // ---- When wipes may come at any moment ----

  ghost predicate BoundKept(limit: Limit, earlier: seq<Event>, window: seq<Event>, key: Name, born: real, start: real) {
    Runs(New(born), limit, earlier, born) && EndTime(earlier, born) <= start
    && Runs(After(New(born), limit, earlier, born), limit, window, start) ==>
      var t := Counted(After(New(born), limit, earlier, born), limit, window, start, key);
      (t.admitted as real) <= Bound(limit, t.wipes, EndTime(window, start) - start)
  }

  lemma {:induction false} NothingAdmitted(l: Limiter, limit: Limit, es: seq<Event>, start: real, key: Name)
    requires Sensible(limit) && limit.burstSize < 1 && Sound(l, limit, start) && Runs(l, limit, es, start)
    ensures Counted(l, limit, es, start, key).admitted == 0
    decreases |es|
  {
    if |es| > 0 {
      var front, e := es[..|es| - 1], es[|es| - 1];
      NothingAdmitted(l, limit, front, start, key);
      RunSound(l, limit, front, start);
      if e.act.Take? {
        var b := Held(After(l, limit, front, start), e.act.call).bucket;
        assert Refilled(b, e.now).tokens <= b.maxTokens < 1.0;
      }
    }
  }

  lemma CountNext(l: Limiter, limit: Limit, es: seq<Event>, start: real, e: Event, key: Name) returns (r: Limiter, t: Tally)
    requires Linked(l) && Runs(l, limit, es, start)
    requires Enabled(After(l, limit, es, start), e.act) && EndTime(es, start) <= e.now
    ensures Runs(l, limit, es + [e], start)
    ensures r == After(l, limit, es + [e], start) == Step(After(l, limit, es, start), limit, e)
    ensures t == Counted(l, limit, es + [e], start, key) == Tallied(After(l, limit, es, start), Counted(l, limit, es, start, key), e, key)
  {
    assert (es + [e])[..|es + [e]| - 1] == es;
    r, t := After(l, limit, es + [e], start), Counted(l, limit, es + [e], start, key);
  }

  const WIPED := 601.0

  /** Just after a wipe: the key's bucket is the second one, with `n` tokens gone, and nothing is under way. */
  predicate Serving(l: Limiter, limit: Limit, key: Name, n: int) {
    && key in l.buckets && l.buckets[key] == 1 && |l.heap| == 2 && l.calls == map[] && l.cleanup == WIPED && Linked(l)
    && l.heap[1] == Owned(key, Full(limit, WIPED).(tokens := (limit.burstSize - n) as real))
  }

  /** One request finds the key's bucket and draws a token from it. */
  lemma ServeOne(l: Limiter, limit: Limit, es: seq<Event>, key: Name, n: nat) returns (es': seq<Event>)
    requires Linked(l) && Runs(l, limit, es, WIPED) && EndTime(es, WIPED) == WIPED
    requires Serving(After(l, limit, es, WIPED), limit, key, n) && n < limit.burstSize
    ensures Runs(l, limit, es', WIPED) && EndTime(es', WIPED) == WIPED && Serving(After(l, limit, es', WIPED), limit, key, n + 1)
    ensures Counted(l, limit, es', WIPED, key).admitted == Counted(l, limit, es, WIPED, key).admitted + 1
    ensures Counted(l, limit, es', WIPED, key).wipes == Counted(l, limit, es, WIPED, key).wipes
  {
    var find, take := Event(Find(1, key), WIPED), Event(Take(1), WIPED);
    var m := After(l, limit, es, WIPED);
    var a, ta := CountNext(l, limit, es, WIPED, find, key);
    assert a == m.(calls := map[1 := 1]);
    SameInstant(m.heap[1].bucket, WIPED);
    var b, tb := CountNext(l, limit, es + [find], WIPED, take, key);
    assert b.calls == map[];
    es' := es + [find] + [take];
  }

  lemma {:induction false} ServeBurst(l: Limiter, limit: Limit, es: seq<Event>, key: Name, n: nat) returns (es': seq<Event>)
    requires Linked(l) && Runs(l, limit, es, WIPED) && EndTime(es, WIPED) == WIPED
    requires Serving(After(l, limit, es, WIPED), limit, key, n) && n <= limit.burstSize
    ensures Runs(l, limit, es', WIPED) && EndTime(es', WIPED) == WIPED
    ensures Counted(l, limit, es', WIPED, key).admitted == Counted(l, limit, es, WIPED, key).admitted + limit.burstSize - n
    ensures Counted(l, limit, es', WIPED, key).wipes == Counted(l, limit, es, WIPED, key).wipes
    decreases limit.burstSize - n
  {
    if n == limit.burstSize {
      es' := es;
    } else {
      var mid := ServeOne(l, limit, es, key, n);
      es' := ServeBurst(l, limit, mid, key, n + 1);
    }
  }

  /** A request that has found its bucket when another one wipes it. */
  lemma LeftBehind(limit: Limit, key: Name) returns (earlier: seq<Event>, l: Limiter)
    requires Sensible(limit)
    ensures Runs(New(0.0), limit, earlier, 0.0) && EndTime(earlier, 0.0) == WIPED && l == After(New(0.0), limit, earlier, 0.0)
    ensures l.calls == map[0 := 0] && Serving(l.(calls := map[]), limit, key, 0)
    ensures l.heap[0] == Owned(key, Full(limit, 0.0)) && Linked(l)
  {
    var e1, e2, e3 := Event(Find(0, key), 0.0), Event(Find(1, key), WIPED), Event(Look(1), WIPED);
    var a, _ := CountNext(New(0.0), limit, [], 0.0, e1, key);
    assert a.heap == [Owned(key, Full(limit, 0.0))] && a.calls == map[0 := 0];
    var b, _ := CountNext(New(0.0), limit, [] + [e1], 0.0, e2, key);
    assert b.heap == [Owned(key, Full(limit, 0.0)), Owned(key, Full(limit, WIPED))] && b.calls == map[0 := 0, 1 := 1];
    var c, _ := CountNext(New(0.0), limit, [] + [e1] + [e2], 0.0, e3, key);
    assert c.calls == map[0 := 0];
    earlier, l := [] + [e1] + [e2] + [e3], c;
  }

  /** That request is let through, and at the same instant a whole burst from the new bucket. */
  lemma OneTooMany(limit: Limit, key: Name) returns (earlier: seq<Event>, window: seq<Event>)
    requires Sensible(limit) && limit.burstSize >= 1
    ensures !BoundKept(limit, earlier, window, key, 0.0, WIPED)
  {
    var l;
    earlier, l := LeftBehind(limit, key);
    var take := Event(Take(0), WIPED);
    FullStays(limit);
    var m, t := CountNext(l, limit, [], WIPED, take, key);
    assert m.calls == map[] && Serving(m, limit, key, 0) && t == Tally(1, 1, 0);
    window := ServeBurst(l, limit, [] + [take], key, 0);
    assert Bound(limit, 0, 0.0) == limit.burstSize as real by {
      assert Earned(1.0, limit.burstSize as real) == limit.burstSize as real && Earned(0.0, Rate(limit)) == 0.0;
    }
  }

  lemma FullStays(limit: Limit)
    requires Sensible(limit) && limit.burstSize >= 1
    ensures Draw(Full(limit, 0.0), WIPED).allowed
  {
    Grows(0.0, WIPED, Rate(limit));
  }

  lemma NoBurstKeeps(limit: Limit, earlier: seq<Event>, window: seq<Event>, key: Name, born: real, start: real)
    requires Sensible(limit) && limit.burstSize < 1
    ensures BoundKept(limit, earlier, window, key, born, start)
  {
    if Runs(New(born), limit, earlier, born) && EndTime(earlier, born) <= start
       && Runs(After(New(born), limit, earlier, born), limit, window, start) {
      RunSound(New(born), limit, earlier, born);
      var l := After(New(born), limit, earlier, born);
      NothingAdmitted(l, limit, window, start, key);
      RunSound(l, limit, window, start);
      BoundPositive(limit, Counted(l, limit, window, start, key).wipes, EndTime(window, start) - start);
    }
  }

  lemma BoundPositive(limit: Limit, wipes: nat, time: real)
    requires Sensible(limit) && time >= 0.0
    ensures Bound(limit, wipes, time) >= 0.0
  {
    Grows(0.0, time, Rate(limit));
    Grows(0.0, (wipes + 1) as real, limit.burstSize as real);
  }

  /** The bound holds as it stands in every window of every interleaving only for a limiter that admits
      nothing: otherwise a request caught by a wipe comes on top, even in a window with no wipe in it. */
  lemma BoundKeptExactly(limit: Limit)
    requires Sensible(limit)
    ensures (forall earlier, window: seq<Event>, key, born, start :: BoundKept(limit, earlier, window, key, born, start))
            <==> limit.burstSize < 1
  {
    if limit.burstSize < 1 {
      forall earlier, window: seq<Event>, key, born, start ensures BoundKept(limit, earlier, window, key, born, start) {
        NoBurstKeeps(limit, earlier, window, key, born, start);
      }
    } else {
      var key := Name("");
      var earlier, window := OneTooMany(limit, key);
    }
  }

  // ---- A client that keeps to the rate ----

  /** An answered request. */
  datatype Answer = Answer(key: Name, now: real, allowed: bool)

  function AnswerOf(l: Limiter, e: Event): seq<Answer>
    requires Linked(l) && Enabled(l, e.act)
  {
    if e.act.Take? then [Answer(Held(l, e.act.call).key, e.now, Draw(Held(l, e.act.call).bucket, e.now).allowed)] else []
  }

  /** The answers a run gave, in order. */
  function Answers(limit: Limit, es: seq<Event>, born: real): seq<Answer>
    requires Runs(New(born), limit, es, born)
    decreases |es|
  {
    if |es| == 0 then []
    else Answers(limit, es[..|es| - 1], born) + AnswerOf(After(New(born), limit, es[..|es| - 1], born), es[|es| - 1])
  }

  /** Requests for `key` draw at least one refilled token's time apart. */
  predicate Spaced(limit: Limit, log: seq<Answer>, key: Name) {
    forall i, j :: 0 <= i < j < |log| && log[i].key == key && log[j].key == key ==> Apart(limit, log[i].now, log[j].now)
  }

  predicate Apart(limit: Limit, before: real, now: real) {
    Earned(now - before, Rate(limit)) >= 1.0
  }

  predicate AllAllowed(log: seq<Answer>, key: Name) {
    forall i :: 0 <= i < |log| && log[i].key == key ==> log[i].allowed
  }

  /** The bucket still holds a whole token, or was last touched by one of its key's requests. */
  ghost predicate Rested(log: seq<Answer>, o: Owned) {
    o.bucket.tokens >= 1.0 || exists i :: 0 <= i < |log| && log[i].key == o.key && log[i].now == o.bucket.lastUpdate
  }

  ghost predicate AllRested(l: Limiter, log: seq<Answer>) {
    forall r :: 0 <= r < |l.heap| ==> Rested(log, l.heap[r])
  }

  lemma RestedLater(log: seq<Answer>, more: seq<Answer>, o: Owned)
    requires Rested(log, o)
    ensures Rested(log + more, o)
  {
    if o.bucket.tokens < 1.0 {
      var i :| 0 <= i < |log| && log[i].key == o.key && log[i].now == o.bucket.lastUpdate;
      assert (log + more)[i] == log[i];
    }
  }

  lemma StepRested(l: Limiter, limit: Limit, e: Event, log: seq<Answer>)
    requires limit.burstSize >= 1 && Linked(l) && Enabled(l, e.act) && AllRested(l, log)
    ensures AllRested(Step(l, limit, e), log + AnswerOf(l, e))
  {
    var l', log' := Step(l, limit, e), log + AnswerOf(l, e);
    forall r | 0 <= r < |l'.heap| ensures Rested(log', l'.heap[r]) {
      if e.act.Take? && l.calls[e.act.call] == r {
        assert log'[|log|].key == l'.heap[r].key && log'[|log|].now == l'.heap[r].bucket.lastUpdate;
      } else if r < |l.heap| {
        RestedLater(log, AnswerOf(l, e), l.heap[r]);
      }
    }
  }

  /** A request a token's time after every earlier one for its key is let through. */
  lemma RestedAllows(log: seq<Answer>, o: Owned, limit: Limit, now: real)
    requires Sensible(limit) && limit.burstSize >= 1 && Proper(o.bucket, limit, now) && Rested(log, o)
    requires forall i :: 0 <= i < |log| && log[i].key == o.key ==> Apart(limit, log[i].now, now)
    ensures Draw(o.bucket, now).allowed
  {
    Grows(0.0, now - o.bucket.lastUpdate, Rate(limit));
    if o.bucket.tokens < 1.0 {
      var i :| 0 <= i < |log| && log[i].key == o.key && log[i].now == o.bucket.lastUpdate;
    }
  }

  lemma SpacedStep(l: Limiter, limit: Limit, e: Event, before: real, log: seq<Answer>, key: Name)
    requires Sensible(limit) && limit.burstSize >= 1 && Sound(l, limit, before) && Enabled(l, e.act) && before <= e.now
    requires AllRested(l, log) && AllAllowed(log, key) && Spaced(limit, log + AnswerOf(l, e), key)
    ensures AllAllowed(log + AnswerOf(l, e), key)
  {
    if e.act.Take? && Held(l, e.act.call).key == key {
      var o, log' := Held(l, e.act.call), log + AnswerOf(l, e);
      forall i | 0 <= i < |log| && log[i].key == o.key ensures Apart(limit, log[i].now, e.now) {
        assert log'[i] == log[i] && log'[|log|].key == key;
      }
      RestedAllows(log, o, limit, e.now);
    }
  }

  lemma {:induction false} SpacedRun(limit: Limit, es: seq<Event>, key: Name, born: real)
    requires Sensible(limit) && limit.burstSize >= 1 && Runs(New(born), limit, es, born)
    ensures AllRested(After(New(born), limit, es, born), Answers(limit, es, born))
    ensures Spaced(limit, Answers(limit, es, born), key) ==> AllAllowed(Answers(limit, es, born), key)
    decreases |es|
  {
    if |es| > 0 {
      var front, e := es[..|es| - 1], es[|es| - 1];
      SpacedRun(limit, front, key, born);
      RunSound(New(born), limit, front, born);
      var l, log := After(New(born), limit, front, born), Answers(limit, front, born);
      StepRested(l, limit, e, log);
      if Spaced(limit, log + AnswerOf(l, e), key) {
        SpacedFront(limit, log, AnswerOf(l, e), key);
        SpacedStep(l, limit, e, EndTime(front, born), log, key);
      }
    }
  }

  lemma SpacedFront(limit: Limit, log: seq<Answer>, more: seq<Answer>, key: Name)
    requires Spaced(limit, log + more, key)
    ensures Spaced(limit, log, key)
  {
    assert forall i :: 0 <= i < |log| ==> (log + more)[i] == log[i];
  }

  ghost predicate ServesSpaced(limit: Limit, es: seq<Event>, key: Name, born: real) {
    Runs(New(born), limit, es, born) && Spaced(limit, Answers(limit, es, born), key) ==> AllAllowed(Answers(limit, es, born), key)
  }

  lemma RunNext(limit: Limit, es: seq<Event>, born: real, e: Event) returns (r: Limiter)
    requires Runs(New(born), limit, es, born)
    requires Enabled(After(New(born), limit, es, born), e.act) && EndTime(es, born) <= e.now
    ensures Runs(New(born), limit, es + [e], born)
    ensures r == After(New(born), limit, es + [e], born) == Step(After(New(born), limit, es, born), limit, e)
    ensures Answers(limit, es + [e], born) == Answers(limit, es, born) + AnswerOf(After(New(born), limit, es, born), e)
  {
    assert (es + [e])[..|es + [e]| - 1] == es;
    r := After(New(born), limit, es + [e], born);
  }

  lemma NoBurstRefuses(limit: Limit, key: Name)
    requires limit.burstSize < 1
    ensures !ServesSpaced(limit, [] + [Event(Find(0, key), 0.0)] + [Event(Take(0), 0.0)], key, 0.0)
  {
    var find, take := Event(Find(0, key), 0.0), Event(Take(0), 0.0);
    var l1 := RunNext(limit, [], 0.0, find);
    var l2 := RunNext(limit, [] + [find], 0.0, take);
    assert l1.heap == [Owned(key, Full(limit, 0.0))] && l1.calls == map[0 := 0];
    SameInstant(Full(limit, 0.0), 0.0);
    var log := Answers(limit, [] + [find] + [take], 0.0);
    assert log == [Answer(key, 0.0, false)];
    assert log[0].key == key && !log[0].allowed;
    assert Spaced(limit, log, key) && !AllAllowed(log, key);
  }

  /** A client whose requests are spaced by the rate is never refused, whatever other keys do and
      whenever buckets are wiped, exactly when a bucket holds at least one token. */
  lemma SpacedClientServed(limit: Limit, key: Name)
    requires Sensible(limit)
    ensures (forall es: seq<Event>, born: real :: ServesSpaced(limit, es, key, born)) <==> limit.burstSize >= 1
  {
    if limit.burstSize >= 1 {
      forall es: seq<Event>, born: real ensures ServesSpaced(limit, es, key, born) {
        if Runs(New(born), limit, es, born) {
          SpacedRun(limit, es, key, born);
        }
      }
    } else {
      NoBurstRefuses(limit, key);
    }
  }

  // ---- The limiter as it is written ----

  class RateLimiter {
    const limit: Limit
    var buckets: map<Name, nat>
    var heap: seq<Owned>
    var calls: map<nat, nat>
    var cleanup: real

    constructor (config: Limit, now: real)
      ensures limit == config && Valid() && State() == New(now)
    {
      limit, buckets, heap, calls, cleanup := config, map[], [], map[], now;
    }

    ghost function State(): Limiter
      reads this
    {
      Limiter(buckets, heap, calls, cleanup)
    }

    ghost predicate Valid()
      reads this
    {
      Linked(State())
    }

    /** getBucket, called by request `call`. */
    method GetBucket(call: nat, key: Name, now: real)
      requires Valid() && call !in calls
      modifies this
      ensures Valid() && State() == Step(old(State()), limit, Event(Find(call, key), now))
    {
      if now - cleanup > PERIOD {
        buckets := map[];
        cleanup := now;
      }
      if key !in buckets {
        buckets := buckets[key := |heap|];
        heap := heap + [Owned(key, Full(limit, now))];
      }
      calls := calls[call := buckets[key]];
    }

    /** TokenBucket.Allow on the bucket found. */
    method Allow(call: nat, now: real) returns (allowed: bool)
      requires Valid() && call in calls
      modifies this
      ensures Valid() && State() == Step(old(State()), limit, Event(Take(call), now))
      ensures allowed == Draw(Held(old(State()), call).bucket, now).allowed
    {
      var at := calls[call];
      var bucket := heap[at].bucket;
      var tokens := bucket.tokens + Earned(now - bucket.lastUpdate, bucket.refillRate);
      if tokens > bucket.maxTokens {
        tokens := bucket.maxTokens;
      }
      allowed := tokens >= 1.0;
      if allowed {
        tokens := tokens - 1.0;
      }
      heap := heap[at := heap[at].(bucket := bucket.(tokens := tokens, lastUpdate := now))];
      calls := calls - {call};
    }

    /** TokenBucket.Remaining: the whole tokens left; Go's conversion drops the fraction. */
    method Remaining(call: nat, now: real) returns (left: int)
      requires Valid() && call in calls
      modifies this
      ensures Valid() && State() == Step(old(State()), limit, Event(Look(call), now))
      ensures var tokens := Held(old(State()), call).bucket.tokens;
              if tokens >= 0.0 then left as real <= tokens < (left + 1) as real
              else (left - 1) as real < tokens <= left as real
    {
      var tokens := heap[calls[call]].bucket.tokens;
      left := if tokens >= 0.0 then tokens.Floor else -((-tokens).Floor);
      calls := calls - {call};
    }
  }
}
