// internal/gateway/middleware/rate_limit_advanced.go: when evicting idle clients can be observed.

module GatewayEviction {
  import opened TokenBuckets
  import opened GatewayLimiter

  /** A bucket idle for ten minutes is full again, or never holds a whole token. */
  predicate Patient(limit: Limit) {
    limit.burstSize <= 10 * limit.requestsPerMin || limit.burstSize < 1
  }

  // ---- Sweeping is not noticed when limits are patient ----

  predicate Kept(b: Bucket, limit: Limit) {
    && b.maxTokens == limit.burstSize as real && b.refillRate == limit.requestsPerMin as real / 60.0
    && (limit.burstSize >= 1 ==> b.tokens >= 0.0)
  }

  /** A swept client's bucket beside the unswept one: the same, or evicted when the other is idle. */
  predicate Twins(a: map<Name, Bucket>, b: map<Name, Bucket>, e: Name, limit: Limit, now: real) {
    && (e in a ==> e in b && Kept(a[e], limit) && a[e].lastUpdate <= now && (limit.burstSize >= 1 ==> a[e] == b[e]))
    && (e in b ==> Kept(b[e], limit) && b[e].lastUpdate <= now)
    && (e in b && e !in a && limit.burstSize >= 1 ==> b[e].lastUpdate <= now - IDLE)
  }

  ghost predicate TwinClients(a: map<Name, Bucket>, b: map<Name, Bucket>, limits: Name -> Limit, now: real) {
    forall e :: Twins(a, b, e, limits(e), now)
  }

  ghost predicate TwinLimiters(a: Limiter, b: Limiter, limits: Name -> Limit, now: real) {
    && Settled(a) && Settled(b) && SameCalls(a, b)
    && (forall ip :: TwinClients(ClientOf(a, ip), ClientOf(b, ip), limits, now))
  }

  predicate SameCalls(a: Limiter, b: Limiter)
    requires Sound(a) && Sound(b)
  {
    a.calls.Keys == b.calls.Keys && forall c :: c in a.calls ==> CallerOf(a, c) == CallerOf(b, c)
  }

  /** No request under way holds a client that has been evicted. */
  predicate Settled(l: Limiter) {
    Sound(l) && forall c :: c in l.calls ==> Current(l, c)
  }

  function CallerOf(l: Limiter, c: nat): Name
    requires Sound(l) && c in l.calls
  {
    l.heap[l.calls[c]].ip
  }

  predicate Current(l: Limiter, c: nat)
    requires Sound(l) && c in l.calls
  {
    CallerOf(l, c) in l.clients && l.clients[CallerOf(l, c)] == l.calls[c]
  }

  /** The heart of it: an idle bucket refills to the brim. */
  lemma IdleIsFull(b: Bucket, limit: Limit, now: real)
    requires Kept(b, limit) && limit.burstSize >= 1 && Patient(limit) && b.lastUpdate <= now - IDLE
    ensures Refilled(b, now) == Refilled(Full(limit, now), now)
  {
    Grows(IDLE, now - b.lastUpdate, b.refillRate);
    assert Earned(IDLE, b.refillRate) == 10.0 * limit.requestsPerMin as real;
  }

  lemma DrawKept(b: Bucket, limit: Limit, now: real)
    requires Kept(b, limit) && b.lastUpdate <= now && (limit.burstSize >= 1 ==> limit.requestsPerMin >= 0)
    ensures Kept(Draw(b, now).bucket, limit) && Draw(b, now).bucket.lastUpdate == now
    ensures limit.burstSize < 1 ==> !Draw(b, now).allowed
  {
    assert Refilled(b, now).tokens <= b.maxTokens;
    if limit.burstSize >= 1 {
      assert b.refillRate >= 0.0;
      Earns(b, now);
    }
  }

  /** Two twins give the same answer and are twins again. */
  lemma ServeTwins(a: map<Name, Bucket>, b: map<Name, Bucket>, e: Name, limit: Limit, now: real)
    requires Patient(limit) && Twins(a, b, e, limit, now)
    ensures var x, y := Draw(BucketFor(a, e, limit, now), now), Draw(BucketFor(b, e, limit, now), now);
            x.allowed == y.allowed && Twins(a[e := x.bucket], b[e := y.bucket], e, limit, now)
  {
    DrawKept(BucketFor(a, e, limit, now), limit, now);
    DrawKept(BucketFor(b, e, limit, now), limit, now);
    if limit.burstSize >= 1 && e in b && e !in a {
      IdleIsFull(b[e], limit, now);
    }
  }

  lemma LaterTwins(a: Limiter, b: Limiter, limits: Name -> Limit, before: real, now: real)
    requires TwinLimiters(a, b, limits, before) && before <= now
    ensures TwinLimiters(a, b, limits, now)
  {
    forall ip ensures TwinClients(ClientOf(a, ip), ClientOf(b, ip), limits, now) {
      assert TwinClients(ClientOf(a, ip), ClientOf(b, ip), limits, before);
      forall e ensures Twins(ClientOf(a, ip), ClientOf(b, ip), e, limits(e), now) {
        assert Twins(ClientOf(a, ip), ClientOf(b, ip), e, limits(e), before);
      }
    }
  }

  lemma FindSettled(l: Limiter, c: nat, ip: Name)
    requires Settled(l)
    ensures Settled(FindStep(l, c, ip))
  {
    var l' := FindStep(l, c, ip);
    FindClients(l, c, ip, ip);
    forall d | d in l'.calls ensures Current(l', d) {
      if d != c {
        assert Current(l, d);
      }
    }
  }

  lemma FindTwinClients(a: Limiter, b: Limiter, limits: Name -> Limit, now: real, c: nat, ip: Name, jp: Name)
    requires TwinLimiters(a, b, limits, now)
    ensures Sound(FindStep(a, c, ip)) && Sound(FindStep(b, c, ip))
    ensures TwinClients(ClientOf(FindStep(a, c, ip), jp), ClientOf(FindStep(b, c, ip), jp), limits, now)
  {
    FindClients(a, c, ip, jp);
    FindClients(b, c, ip, jp);
    assert TwinClients(ClientOf(a, jp), ClientOf(b, jp), limits, now);
  }

  lemma FindCaller(l: Limiter, c: nat, ip: Name)
    requires Sound(l)
    ensures var l' := FindStep(l, c, ip);
            && Sound(l') && l'.calls.Keys == l.calls.Keys + {c} && CallerOf(l', c) == ip
            && forall d :: d in l.calls && d != c ==> CallerOf(l', d) == CallerOf(l, d)
  {
  }

  lemma FindTwins(a: Limiter, b: Limiter, limits: Name -> Limit, now: real, c: nat, ip: Name)
    requires TwinLimiters(a, b, limits, now) && c !in a.calls
    ensures TwinLimiters(FindStep(a, c, ip), FindStep(b, c, ip), limits, now)
  {
    FindSettled(a, c, ip);
    FindSettled(b, c, ip);
    FindCaller(a, c, ip);
    FindCaller(b, c, ip);
    assert SameCalls(FindStep(a, c, ip), FindStep(b, c, ip));
    forall jp ensures TwinClients(ClientOf(FindStep(a, c, ip), jp), ClientOf(FindStep(b, c, ip), jp), limits, now) {
      FindTwinClients(a, b, limits, now, c, ip, jp);
    }
  }

  lemma ServeClients(l: Limiter, limits: Name -> Limit, c: nat, e: Name, now: real, ip: Name)
    requires Sound(l) && c in l.calls && Current(l, c)
    ensures var l', before := ServeStep(l, limits, c, e, now).0, ClientOf(l, ip);
            var drawn := Draw(BucketFor(before, e, limits(e), now), now);
            Sound(l') && ClientOf(l', ip) == if ip == CallerOf(l, c) then before[e := drawn.bucket] else before
    ensures ServeStep(l, limits, c, e, now).1 == Draw(BucketFor(ClientOf(l, CallerOf(l, c)), e, limits(e), now), now).allowed
  {
  }

  lemma ServeSettled(l: Limiter, limits: Name -> Limit, c: nat, e: Name, now: real)
    requires Settled(l) && c in l.calls
    ensures var l' := ServeStep(l, limits, c, e, now).0;
            Settled(l') && l'.calls == l.calls - {c} && forall d :: d in l'.calls ==> CallerOf(l', d) == CallerOf(l, d)
  {
    var l' := ServeStep(l, limits, c, e, now).0;
    forall d | d in l'.calls ensures Current(l', d) {
      assert Current(l, d);
    }
  }

  lemma ServeTwinClients(a: Limiter, b: Limiter, limits: Name -> Limit, now: real, c: nat, e: Name, ip: Name)
    requires TwinLimiters(a, b, limits, now) && c in a.calls && Patient(limits(e))
    ensures TwinClients(ClientOf(ServeStep(a, limits, c, e, now).0, ip), ClientOf(ServeStep(b, limits, c, e, now).0, ip), limits, now)
  {
    var x, y := ClientOf(a, ip), ClientOf(b, ip);
    assert TwinClients(x, y, limits, now);
    assert Current(a, c) && Current(b, c);
    ServeClients(a, limits, c, e, now, ip);
    ServeClients(b, limits, c, e, now, ip);
    if ip == CallerOf(a, c) {
      assert Twins(x, y, e, limits(e), now);
      ServeTwins(x, y, e, limits(e), now);
      var x' := x[e := Draw(BucketFor(x, e, limits(e), now), now).bucket];
      var y' := y[e := Draw(BucketFor(y, e, limits(e), now), now).bucket];
      forall d ensures Twins(x', y', d, limits(d), now) {
        assert Twins(x, y, d, limits(d), now);
      }
    }
  }

  lemma SameAnswer(a: Limiter, b: Limiter, limits: Name -> Limit, now: real, c: nat, e: Name)
    requires TwinLimiters(a, b, limits, now) && c in a.calls && Patient(limits(e))
    ensures ServeStep(a, limits, c, e, now).1 == ServeStep(b, limits, c, e, now).1
  {
    var ip := CallerOf(a, c);
    var x, y := ClientOf(a, ip), ClientOf(b, ip);
    assert TwinClients(x, y, limits, now);
    assert Current(a, c) && Current(b, c);
    assert Twins(x, y, e, limits(e), now);
    ServeTwins(x, y, e, limits(e), now);
    ServeClients(a, limits, c, e, now, ip);
    ServeClients(b, limits, c, e, now, ip);
  }

  lemma ServeLimiters(a: Limiter, b: Limiter, limits: Name -> Limit, now: real, c: nat, e: Name)
    requires TwinLimiters(a, b, limits, now) && c in a.calls && Patient(limits(e))
    ensures ServeStep(a, limits, c, e, now).1 == ServeStep(b, limits, c, e, now).1
    ensures TwinLimiters(ServeStep(a, limits, c, e, now).0, ServeStep(b, limits, c, e, now).0, limits, now)
  {
    SameAnswer(a, b, limits, now, c, e);
    ServeSettled(a, limits, c, e, now);
    ServeSettled(b, limits, c, e, now);
    var a', b' := ServeStep(a, limits, c, e, now).0, ServeStep(b, limits, c, e, now).0;
    forall ip ensures TwinClients(ClientOf(a', ip), ClientOf(b', ip), limits, now) {
      ServeTwinClients(a, b, limits, now, c, e, ip);
    }
    assert SameCalls(a', b');
  }

  lemma SweepTwins(a: Limiter, b: Limiter, limits: Name -> Limit, now: real)
    requires TwinLimiters(a, b, limits, now)
    requires forall c :: c in a.calls ==> !Expired(a.heap[a.calls[c]].endpoints, now - IDLE)
    ensures TwinLimiters(SweepStep(a, now), b, limits, now)
  {
    var a' := SweepStep(a, now);
    forall ip ensures TwinClients(ClientOf(a', ip), ClientOf(b, ip), limits, now) {
      assert TwinClients(ClientOf(a, ip), ClientOf(b, ip), limits, now);
      forall e ensures Twins(ClientOf(a', ip), ClientOf(b, ip), e, limits(e), now) {
        assert Twins(ClientOf(a, ip), ClientOf(b, ip), e, limits(e), now);
      }
    }
    forall c | c in a'.calls ensures Current(a', c) {
      assert Current(a, c);
    }
  }

  /** One event, played beside its unswept twin. */
  lemma EventTwins(limits: Name -> Limit, p: Played, q: Played, e: Event)
    requires forall k :: Patient(limits(k))
    requires TwinLimiters(p.limiter, q.limiter, limits, e.now) && p.answers == q.answers && Enabled(p.limiter, e.act)
    requires e.act.Sweep? ==>
               forall c :: c in p.limiter.calls ==> !Expired(p.limiter.heap[p.limiter.calls[c]].endpoints, e.now - IDLE)
    ensures Enabled(q.limiter, e.act)
    ensures var p', q' := PlayOne(p, limits, e), if e.act.Sweep? then q else PlayOne(q, limits, e);
            TwinLimiters(p'.limiter, q'.limiter, limits, e.now) && p'.answers == q'.answers
  {
    match e.act
    case Find(c, ip) => FindTwins(p.limiter, q.limiter, limits, e.now, c, ip);
    case Serve(c, endpoint) => ServeLimiters(p.limiter, q.limiter, limits, e.now, c, endpoint);
    case Sweep => SweepTwins(p.limiter, q.limiter, limits, e.now);
  }

  lemma {:induction false} PlayNext(limits: Name -> Limit, es: seq<Event>, e: Event) returns (p: Played)
    requires Run(limits, es) && Enabled(Play(limits, es).limiter, e.act)
    requires LastTime(es) <= e.now
    ensures Run(limits, es + [e]) && p == Play(limits, es + [e]) && p == PlayOne(Play(limits, es), limits, e)
  {
    assert (es + [e])[..|es + [e]| - 1] == es;
    p := Play(limits, es + [e]);
  }

  ghost predicate PlayTwins(limits: Name -> Limit, es: seq<Event>, us: seq<Event>, now: real)
    requires Run(limits, es) && Run(limits, us)
  {
    var p, q := Play(limits, es), Play(limits, us);
    p.answers == q.answers && TwinLimiters(p.limiter, q.limiter, limits, now)
  }

  lemma NextTwins(limits: Name -> Limit, es: seq<Event>, us: seq<Event>, e: Event)
    requires forall k :: Patient(limits(k))
    requires Run(limits, es) && Run(limits, us) && PlayTwins(limits, es, us, LastTime(es)) && LastTime(us) <= LastTime(es)
    requires Run(limits, es + [e]) && Quiet(limits, es + [e])
    ensures var vs := us + if e.act.Sweep? then [] else [e];
            Run(limits, vs) && PlayTwins(limits, es + [e], vs, e.now) && LastTime(vs) <= e.now
  {
    assert (es + [e])[..|es + [e]| - 1] == es;
    var p, q := Play(limits, es), Play(limits, us);
    LaterTwins(p.limiter, q.limiter, limits, LastTime(es), e.now);
    EventTwins(limits, p, q, e);
    var p' := PlayNext(limits, es, e);
    if e.act.Sweep? {
      assert us + [] == us;
    } else {
      var q' := PlayNext(limits, us, e);
    }
  }

  lemma QuietFront(limits: Name -> Limit, es: seq<Event>) returns (front: seq<Event>, e: Event)
    requires |es| > 0 && Run(limits, es) && Quiet(limits, es)
    ensures es == front + [e] && front == es[..|es| - 1] && Run(limits, front) && Quiet(limits, front)
    ensures Unswept(es) == Unswept(front) + if e.act.Sweep? then [] else [e]
  {
    front, e := es[..|es| - 1], es[|es| - 1];
  }

  lemma {:induction false} SweepsUnnoticed(limits: Name -> Limit, es: seq<Event>)
    requires (forall k :: Patient(limits(k))) && Run(limits, es) && Quiet(limits, es)
    ensures Run(limits, Unswept(es)) && PlayTwins(limits, es, Unswept(es), LastTime(es))
    ensures LastTime(Unswept(es)) <= LastTime(es)
    decreases |es|
  {
    if |es| > 0 {
      var front, e := QuietFront(limits, es);
      SweepsUnnoticed(limits, front);
      NextTwins(limits, front, Unswept(front), e);
    }
  }

  // ---- Sweeping is noticed when some limit is not patient ----

  /** `n` requests to one endpoint from one address, one after the other at the same instant. */
  function Batch(n: nat, ip: Name, endpoint: Name, now: real): seq<Event> {
    if n == 0 then [] else Batch(n - 1, ip, endpoint, now) + Request(ip, endpoint, now)
  }

  function Request(ip: Name, endpoint: Name, now: real): seq<Event> {
    [Event(Find(0, ip), now), Event(Serve(0, endpoint), now)]
  }

  datatype Draws = Draws(bucket: Bucket, answers: seq<bool>)

  function DrawMany(b: Bucket, n: nat, now: real): (r: Draws)
    ensures |r.answers| == n
  {
    if n == 0 then Draws(b, [])
    else var before := DrawMany(b, n - 1, now);
         var d := Draw(before.bucket, now);
         Draws(d.bucket, before.answers + [d.allowed])
  }

  /** A run with no request under way, whose next request to `endpoint` from `ip` meets bucket `b`. */
  ghost predicate Meets(limits: Name -> Limit, es: seq<Event>, ip: Name, endpoint: Name, now: real, b: Bucket) {
    && Run(limits, es) && Settled(Play(limits, es).limiter) && Play(limits, es).limiter.calls == map[]
    && LastTime(es) <= now
    && BucketFor(ClientOf(Play(limits, es).limiter, ip), endpoint, limits(endpoint), now) == b
  }

  /** Requests that took run `es` to `es'` gave `answers` and left the bucket `b`. */
  ghost predicate Served(limits: Name -> Limit, es: seq<Event>, es': seq<Event>, ip: Name, endpoint: Name, b: Bucket, answers: seq<bool>)
    requires Run(limits, es) && Run(limits, es')
  {
    Took(Play(limits, es), Play(limits, es'), ip, endpoint, b, answers) && (Quiet(limits, es) ==> Quiet(limits, es'))
  }

  predicate Took(p: Played, q: Played, ip: Name, endpoint: Name, b: Bucket, answers: seq<bool>)
    requires Sound(p.limiter) && Sound(q.limiter)
  {
    q.answers == p.answers + answers && ClientOf(q.limiter, ip) == ClientOf(p.limiter, ip)[endpoint := b]
  }

  lemma TookThen(p: Played, m: Played, q: Played, ip: Name, endpoint: Name, x: Draws, y: Drawn)
    requires Sound(p.limiter) && Sound(m.limiter) && Sound(q.limiter)
    requires Took(p, m, ip, endpoint, x.bucket, x.answers) && Took(m, q, ip, endpoint, y.bucket, [y.allowed])
    ensures Took(p, q, ip, endpoint, y.bucket, x.answers + [y.allowed])
  {
  }

  lemma PlayRequest(limits: Name -> Limit, es: seq<Event>, ip: Name, endpoint: Name, now: real, b: Bucket) returns (es': seq<Event>)
    requires Meets(limits, es, ip, endpoint, now, b)
    ensures es' == es + Request(ip, endpoint, now) && Meets(limits, es', ip, endpoint, now, Draw(b, now).bucket)
    ensures Served(limits, es, es', ip, endpoint, Draw(b, now).bucket, [Draw(b, now).allowed])
  {
    var find, serve := Event(Find(0, ip), now), Event(Serve(0, endpoint), now);
    var l := Play(limits, es).limiter;
    FindSettled(l, 0, ip);
    FindClients(l, 0, ip, ip);
    var p1 := PlayNext(limits, es, find);
    ServeSettled(p1.limiter, limits, 0, endpoint, now);
    ServeClients(p1.limiter, limits, 0, endpoint, now, ip);
    var p2 := PlayNext(limits, es + [find], serve);
    assert p2.limiter.calls == map[];
    es' := es + [find] + [serve];
    assert es' == es + Request(ip, endpoint, now);
    RequestQuiet(limits, es, find, serve);
  }

  lemma RequestQuiet(limits: Name -> Limit, es: seq<Event>, find: Event, serve: Event)
    requires Run(limits, es) && Run(limits, es + [find]) && Run(limits, es + [find] + [serve])
    requires !find.act.Sweep? && !serve.act.Sweep?
    ensures Quiet(limits, es) ==> Quiet(limits, es + [find] + [serve])
  {
    QuietNext(limits, es, find);
    QuietNext(limits, es + [find], serve);
  }

  lemma QuietNext(limits: Name -> Limit, es: seq<Event>, e: Event)
    requires Run(limits, es) && Run(limits, es + [e]) && !e.act.Sweep?
    ensures Quiet(limits, es) ==> Quiet(limits, es + [e])
  {
    assert (es + [e])[..|es + [e]| - 1] == es;
  }

  lemma {:induction false} PlayBatch(limits: Name -> Limit, es: seq<Event>, n: nat, ip: Name, endpoint: Name, now: real, b: Bucket)
      returns (es': seq<Event>, d: Draws)
    requires Meets(limits, es, ip, endpoint, now, b) && n > 0
    ensures es' == es + Batch(n, ip, endpoint, now) && d == DrawMany(b, n, now)
    ensures Meets(limits, es', ip, endpoint, now, d.bucket) && Served(limits, es, es', ip, endpoint, d.bucket, d.answers)
  {
    if n == 1 {
      es' := PlayRequest(limits, es, ip, endpoint, now, b);
      d := DrawMany(b, n, now);
      OneRequest(b, ip, endpoint, now);
    } else {
      var mid, dm := PlayBatch(limits, es, n - 1, ip, endpoint, now, b);
      es' := PlayRequest(limits, mid, ip, endpoint, now, dm.bucket);
      d := Draws(Draw(dm.bucket, now).bucket, dm.answers + [Draw(dm.bucket, now).allowed]);
      OneMore(es, n, ip, endpoint, now, b);
      ServedThen(limits, es, mid, es', ip, endpoint, dm, Draw(dm.bucket, now));
    }
  }

  lemma OneRequest(b: Bucket, ip: Name, endpoint: Name, now: real)
    ensures Batch(1, ip, endpoint, now) == Request(ip, endpoint, now)
    ensures DrawMany(b, 1, now) == Draws(Draw(b, now).bucket, [Draw(b, now).allowed])
  {
    assert Batch(0, ip, endpoint, now) == [] && DrawMany(b, 0, now) == Draws(b, []);
  }

  lemma {:induction false} OneMore(es: seq<Event>, n: nat, ip: Name, endpoint: Name, now: real, b: Bucket)
    requires n > 0
    ensures es + Batch(n, ip, endpoint, now) == es + Batch(n - 1, ip, endpoint, now) + Request(ip, endpoint, now)
    ensures var dm := DrawMany(b, n - 1, now);
            DrawMany(b, n, now) == Draws(Draw(dm.bucket, now).bucket, dm.answers + [Draw(dm.bucket, now).allowed])
  {
  }

  lemma ServedThen(limits: Name -> Limit, es: seq<Event>, mid: seq<Event>, es': seq<Event>, ip: Name, endpoint: Name, x: Draws, y: Drawn)
    requires Run(limits, es) && Run(limits, mid) && Run(limits, es')
    requires Served(limits, es, mid, ip, endpoint, x.bucket, x.answers) && Served(limits, mid, es', ip, endpoint, y.bucket, [y.allowed])
    ensures Served(limits, es, es', ip, endpoint, y.bucket, x.answers + [y.allowed])
  {
    TookThen(Play(limits, es), Play(limits, mid), Play(limits, es'), ip, endpoint, x, y);
  }

  predicate AllTrue(answers: seq<bool>) {
    forall i :: 0 <= i < |answers| ==> answers[i]
  }

  /** A full bucket allows its whole burst at once. */
  lemma {:induction false} BurstAllowed(limit: Limit, n: nat, now: real)
    requires n <= limit.burstSize
    ensures var d := DrawMany(Full(limit, now), n, now);
            AllTrue(d.answers) && d.bucket == Full(limit, now).(tokens := (limit.burstSize - n) as real)
  {
    if n > 0 {
      BurstAllowed(limit, n - 1, now);
      SameInstant(DrawMany(Full(limit, now), n - 1, now).bucket, now);
    }
  }

  /** A bucket that refills to fewer than `n` tokens refuses one of `n` requests. */
  lemma {:induction false} DrawTooMany(b: Bucket, n: nat, now: real)
    requires n > 0 && Refilled(b, now).tokens < n as real
    ensures !AllTrue(DrawMany(b, n, now).answers)
  {
    if AllTrue(DrawMany(b, n, now).answers) {
      DrawnTokens(b, n, now);
      assert DrawMany(b, n, now).bucket.tokens < 0.0;
      DrawnPositive(b, n, now);
    }
  }

  lemma {:induction false} DrawnTokens(b: Bucket, n: nat, now: real)
    requires n > 0 && AllTrue(DrawMany(b, n, now).answers)
    ensures var d := DrawMany(b, n, now).bucket;
            d.tokens <= Refilled(b, now).tokens - n as real && d.lastUpdate == now
  {
    var d := DrawMany(b, n, now);
    assert d.answers[n - 1];
    if n > 1 {
      var before := DrawMany(b, n - 1, now);
      forall i | 0 <= i < n - 1 ensures before.answers[i] {
        assert before.answers[i] == d.answers[i];
      }
      DrawnTokens(b, n - 1, now);
      assert d.bucket == Draw(before.bucket, now).bucket && Draw(before.bucket, now).allowed;
      NothingEarned(before.bucket, now);
    } else {
      assert DrawMany(b, 0, now) == Draws(b, []);
    }
  }

  lemma DrawnPositive(b: Bucket, n: nat, now: real)
    requires n > 0 && AllTrue(DrawMany(b, n, now).answers)
    ensures DrawMany(b, n, now).bucket.tokens >= 0.0
  {
    assert DrawMany(b, n, now).answers[n - 1];
  }

  lemma {:induction false} UnsweptAppend(xs: seq<Event>, ys: seq<Event>)
    ensures Unswept(xs + ys) == Unswept(xs) + Unswept(ys)
  {
    if |ys| == 0 {
      assert xs + ys == xs;
    } else {
      var front, e := ys[..|ys| - 1], ys[|ys| - 1];
      assert (xs + ys)[..|xs + ys| - 1] == xs + front;
      UnsweptAppend(xs, front);
    }
  }

  lemma UnsweptOne(e: Event)
    ensures Unswept([e]) == if e.act.Sweep? then [] else [e]
  {
    assert [e][..0] == [];
  }

  lemma {:induction false} UnsweptBatch(n: nat, ip: Name, endpoint: Name, now: real)
    ensures Unswept(Batch(n, ip, endpoint, now)) == Batch(n, ip, endpoint, now)
  {
    if n > 0 {
      UnsweptBatch(n - 1, ip, endpoint, now);
      UnsweptAppend(Batch(n - 1, ip, endpoint, now), Request(ip, endpoint, now));
      UnsweptRequest(ip, endpoint, now);
    }
  }

  lemma UnsweptRequest(ip: Name, endpoint: Name, now: real)
    ensures Unswept(Request(ip, endpoint, now)) == Request(ip, endpoint, now)
  {
    var find, serve := Event(Find(0, ip), now), Event(Serve(0, endpoint), now);
    assert Request(ip, endpoint, now) == [find] + [serve];
    UnsweptAppend([find], [serve]);
    UnsweptOne(find);
    UnsweptOne(serve);
  }

  /** The run that tells: use up the burst, be swept ten minutes later, and ask for the burst again. */
  function Telltale(limit: Limit, ip: Name, endpoint: Name): seq<Event>
    requires limit.burstSize >= 1
  {
    Batch(limit.burstSize, ip, endpoint, 0.0) + [Event(Sweep, IDLE)] + Batch(limit.burstSize, ip, endpoint, IDLE)
  }

  lemma StartMeets(limits: Name -> Limit, ip: Name, endpoint: Name)
    ensures Meets(limits, [], ip, endpoint, 0.0, Full(limits(endpoint), 0.0)) && Quiet(limits, [])
  {
  }

  /** Swept after the first burst, the client meets a full bucket again. */
  lemma SweptMeets(limits: Name -> Limit, ip: Name, endpoint: Name)
    requires limits(endpoint).burstSize >= 1
    ensures var first, burst := Batch(limits(endpoint).burstSize, ip, endpoint, 0.0), limits(endpoint).burstSize;
            var swept := first + [Event(Sweep, IDLE)];
            && Meets(limits, first, ip, endpoint, IDLE, Full(limits(endpoint), 0.0).(tokens := 0.0))
            && Meets(limits, swept, ip, endpoint, IDLE, Full(limits(endpoint), IDLE)) && Quiet(limits, swept)
            && Play(limits, swept).answers == Play(limits, first).answers
            && Play(limits, first).answers == DrawMany(Full(limits(endpoint), 0.0), burst, 0.0).answers
  {
    var limit := limits(endpoint);
    var first := Batch(limit.burstSize, ip, endpoint, 0.0);
    StartMeets(limits, ip, endpoint);
    var es', d := PlayBatch(limits, [], limit.burstSize, ip, endpoint, 0.0, Full(limit, 0.0));
    assert es' == first;
    BurstAllowed(limit, limit.burstSize, 0.0);
    var p := PlayNext(limits, first, Event(Sweep, IDLE));
    var l := Play(limits, first).limiter;
    var client := ClientOf(l, ip);
    assert client == map[endpoint := Full(limit, 0.0).(tokens := 0.0)];
    assert Expired(client, IDLE - IDLE);
    assert ip !in p.limiter.clients;
    assert Settled(p.limiter);
    var swept := first + [Event(Sweep, IDLE)];
    assert swept[..|swept| - 1] == first;
  }

  lemma UnsweptTelltale(limit: Limit, ip: Name, endpoint: Name)
    requires limit.burstSize >= 1
    ensures Unswept(Telltale(limit, ip, endpoint)) ==
            Batch(limit.burstSize, ip, endpoint, 0.0) + Batch(limit.burstSize, ip, endpoint, IDLE)
  {
    var first, again := Batch(limit.burstSize, ip, endpoint, 0.0), Batch(limit.burstSize, ip, endpoint, IDLE);
    UnsweptBatch(limit.burstSize, ip, endpoint, 0.0);
    UnsweptBatch(limit.burstSize, ip, endpoint, IDLE);
    UnsweptOne(Event(Sweep, IDLE));
    UnsweptAppend(first, [Event(Sweep, IDLE)]);
    UnsweptAppend(first + [Event(Sweep, IDLE)], again);
    assert first + [] == first;
  }

  lemma Told(limits: Name -> Limit, ip: Name, endpoint: Name)
    requires !Patient(limits(endpoint))
    ensures var es := Telltale(limits(endpoint), ip, endpoint);
            && Run(limits, es) && Quiet(limits, es) && Run(limits, Unswept(es))
            && Play(limits, es).answers != Play(limits, Unswept(es)).answers
  {
    var limit := limits(endpoint);
    var first := Batch(limit.burstSize, ip, endpoint, 0.0);
    SweptMeets(limits, ip, endpoint);
    var es, all := PlayBatch(limits, first + [Event(Sweep, IDLE)], limit.burstSize, ip, endpoint, IDLE, Full(limit, IDLE));
    BurstAllowed(limit, limit.burstSize, IDLE);
    var b := Full(limit, 0.0).(tokens := 0.0);
    var us, some := PlayBatch(limits, first, limit.burstSize, ip, endpoint, IDLE, b);
    StillShort(limit, b);
    DrawTooMany(b, limit.burstSize, IDLE);
    UnsweptTelltale(limit, ip, endpoint);
    DifferAfter(Play(limits, first).answers, all.answers, some.answers);
  }

  lemma DifferAfter(prefix: seq<bool>, xs: seq<bool>, ys: seq<bool>)
    requires AllTrue(xs) && !AllTrue(ys) && |xs| == |ys|
    ensures prefix + xs != prefix + ys
  {
    var i :| 0 <= i < |ys| && !ys[i];
    assert (prefix + xs)[|prefix| + i] && !(prefix + ys)[|prefix| + i];
  }

  lemma StillShort(limit: Limit, b: Bucket)
    requires !Patient(limit) && b == Full(limit, 0.0).(tokens := 0.0)
    ensures Refilled(b, IDLE).tokens < limit.burstSize as real
  {
    assert Earned(IDLE, b.refillRate) == 10.0 * limit.requestsPerMin as real;
  }

  ghost predicate Unnoticed(limits: Name -> Limit, es: seq<Event>) {
    Run(limits, es) && Quiet(limits, es) ==>
      Run(limits, Unswept(es)) && Play(limits, es).answers == Play(limits, Unswept(es)).answers
  }

  /** Eviction that does not catch a request between its two steps cannot be observed exactly when
      every limit is patient. */
  lemma EvictionUnobservable(limits: Name -> Limit)
    ensures (forall es :: Unnoticed(limits, es)) <==> (forall k :: Patient(limits(k)))
  {
    if forall k :: Patient(limits(k)) {
      forall es ensures Unnoticed(limits, es) {
        if Run(limits, es) && Quiet(limits, es) {
          SweepsUnnoticed(limits, es);
        }
      }
    } else {
      var k :| !Patient(limits(k));
      Told(limits, Name(""), k);
      assert !Unnoticed(limits, Telltale(limits(k), Name(""), k));
    }
  }

  // ---- A sweep between the two steps of a request ----

  /** A new client has no bucket yet, so a sweep before its first request is served evicts it; that
      request is then served by a client nobody will find again. */
  function Race(limit: Limit, ip: Name, endpoint: Name): seq<Event>
    requires limit.burstSize >= 1
  {
    [Event(Find(0, ip), 0.0), Event(Sweep, 0.0), Event(Serve(0, endpoint), 0.0)]
    + Batch(limit.burstSize, ip, endpoint, 0.0)
  }

  lemma FreeRequest(limits: Name -> Limit, ip: Name, endpoint: Name) returns (es: seq<Event>)
    requires limits(endpoint).burstSize >= 1
    ensures es == [Event(Find(0, ip), 0.0), Event(Sweep, 0.0), Event(Serve(0, endpoint), 0.0)]
    ensures Meets(limits, es, ip, endpoint, 0.0, Full(limits(endpoint), 0.0)) && Play(limits, es).answers == [true]
  {
    var full := Full(limits(endpoint), 0.0);
    var e1, e2, e3 := Event(Find(0, ip), 0.0), Event(Sweep, 0.0), Event(Serve(0, endpoint), 0.0);
    var p1 := PlayNext(limits, [], e1);
    assert p1.limiter == Limiter(map[ip := 0], [Client(ip, map[])], map[0 := 0]);
    var p2 := PlayNext(limits, [] + [e1], e2);
    assert p2.limiter.clients == map[];
    SameInstant(full, 0.0);
    var p3 := PlayNext(limits, [] + [e1] + [e2], e3);
    assert p3.limiter.calls == map[] && p3.limiter.clients == map[];
    es := [] + [e1] + [e2] + [e3];
  }

  lemma UnsweptFree(ip: Name, endpoint: Name)
    ensures Unswept([Event(Find(0, ip), 0.0), Event(Sweep, 0.0), Event(Serve(0, endpoint), 0.0)]) == Request(ip, endpoint, 0.0)
  {
    var e1, e2, e3 := Event(Find(0, ip), 0.0), Event(Sweep, 0.0), Event(Serve(0, endpoint), 0.0);
    UnsweptOne(e1);
    UnsweptOne(e2);
    UnsweptOne(e3);
    UnsweptAppend([e1], [e2]);
    UnsweptAppend([e1] + [e2], [e3]);
    assert [e1] + [e2] + [e3] == [e1, e2, e3];
  }

  lemma UnsweptRace(limit: Limit, ip: Name, endpoint: Name)
    requires limit.burstSize >= 1
    ensures Unswept(Race(limit, ip, endpoint)) == Request(ip, endpoint, 0.0) + Batch(limit.burstSize, ip, endpoint, 0.0)
  {
    var free := [Event(Find(0, ip), 0.0), Event(Sweep, 0.0), Event(Serve(0, endpoint), 0.0)];
    UnsweptFree(ip, endpoint);
    UnsweptBatch(limit.burstSize, ip, endpoint, 0.0);
    UnsweptAppend(free, Batch(limit.burstSize, ip, endpoint, 0.0));
  }

  lemma RaceAnswers(limits: Name -> Limit, ip: Name, endpoint: Name) returns (all: seq<bool>)
    requires limits(endpoint).burstSize >= 1
    ensures Run(limits, Race(limits(endpoint), ip, endpoint)) && AllTrue(all) && |all| == limits(endpoint).burstSize
    ensures Play(limits, Race(limits(endpoint), ip, endpoint)).answers == [true] + all
  {
    var limit := limits(endpoint);
    var free := FreeRequest(limits, ip, endpoint);
    var es, d := PlayBatch(limits, free, limit.burstSize, ip, endpoint, 0.0, Full(limit, 0.0));
    BurstAllowed(limit, limit.burstSize, 0.0);
    all := d.answers;
  }

  lemma UnracedAnswers(limits: Name -> Limit, ip: Name, endpoint: Name) returns (some: seq<bool>)
    requires limits(endpoint).burstSize >= 1
    ensures var us := Request(ip, endpoint, 0.0) + Batch(limits(endpoint).burstSize, ip, endpoint, 0.0);
            Run(limits, us) && !AllTrue(some) && |some| == limits(endpoint).burstSize && Play(limits, us).answers == [true] + some
  {
    var limit := limits(endpoint);
    var full := Full(limit, 0.0);
    StartMeets(limits, ip, endpoint);
    var one := PlayRequest(limits, [], ip, endpoint, 0.0, full);
    SameInstant(full, 0.0);
    var b := Draw(full, 0.0).bucket;
    var us, d := PlayBatch(limits, one, limit.burstSize, ip, endpoint, 0.0, b);
    NothingEarned(b, 0.0);
    DrawTooMany(b, limit.burstSize, 0.0);
    some := d.answers;
    assert one == Request(ip, endpoint, 0.0);
  }

  lemma RaceTold(limits: Name -> Limit, ip: Name, endpoint: Name)
    requires limits(endpoint).burstSize >= 1
    ensures var es := Race(limits(endpoint), ip, endpoint);
            && Run(limits, es) && Run(limits, Unswept(es))
            && Play(limits, es).answers != Play(limits, Unswept(es)).answers
  {
    var all := RaceAnswers(limits, ip, endpoint);
    var some := UnracedAnswers(limits, ip, endpoint);
    UnsweptRace(limits(endpoint), ip, endpoint);
    DifferAfter([true], all, some);
  }

  /** No bucket can ever hold a whole token. */
  ghost predicate Dry(l: Limiter) {
    forall i, e :: 0 <= i < |l.heap| && e in l.heap[i].endpoints ==> l.heap[i].endpoints[e].maxTokens < 1.0
  }

  lemma EventDry(limits: Name -> Limit, p: Played, q: Played, e: Event)
    requires forall k :: limits(k).burstSize < 1
    requires Sound(p.limiter) && Sound(q.limiter) && Dry(p.limiter) && Dry(q.limiter)
    requires p.answers == q.answers && p.limiter.calls.Keys == q.limiter.calls.Keys && Enabled(p.limiter, e.act)
    ensures Enabled(q.limiter, e.act)
    ensures var p', q' := PlayOne(p, limits, e), if e.act.Sweep? then q else PlayOne(q, limits, e);
            Dry(p'.limiter) && Dry(q'.limiter) && p'.answers == q'.answers && p'.limiter.calls.Keys == q'.limiter.calls.Keys
  {
    if e.act.Serve? {
      DryServe(p.limiter, limits, e.act.call, e.act.endpoint, e.now);
      DryServe(q.limiter, limits, e.act.call, e.act.endpoint, e.now);
    }
  }

  lemma DryServe(l: Limiter, limits: Name -> Limit, c: nat, endpoint: Name, now: real)
    requires Sound(l) && Dry(l) && c in l.calls && limits(endpoint).burstSize < 1
    ensures Dry(ServeStep(l, limits, c, endpoint, now).0) && !ServeStep(l, limits, c, endpoint, now).1
  {
    var b := BucketFor(l.heap[l.calls[c]].endpoints, endpoint, limits(endpoint), now);
    assert b.maxTokens < 1.0;
    assert Refilled(b, now).tokens <= b.maxTokens;
  }

  lemma {:induction false} AlwaysDry(limits: Name -> Limit, es: seq<Event>)
    requires (forall k :: limits(k).burstSize < 1) && Run(limits, es)
    ensures Run(limits, Unswept(es)) && LastTime(Unswept(es)) <= LastTime(es)
    ensures var p, q := Play(limits, es), Play(limits, Unswept(es));
            Dry(p.limiter) && Dry(q.limiter) && p.answers == q.answers && p.limiter.calls.Keys == q.limiter.calls.Keys
    decreases |es|
  {
    if |es| > 0 {
      var front, e := es[..|es| - 1], es[|es| - 1];
      AlwaysDry(limits, front);
      EventDry(limits, Play(limits, front), Play(limits, Unswept(front)), e);
      if e.act.Sweep? {
        assert Unswept(es) == Unswept(front);
      } else {
        var q := PlayNext(limits, Unswept(front), e);
      }
    }
  }

  ghost predicate UnnoticedEvenRacing(limits: Name -> Limit, es: seq<Event>) {
    Run(limits, es) ==> Run(limits, Unswept(es)) && Play(limits, es).answers == Play(limits, Unswept(es)).answers
  }

  /** With sweeps at any moment, eviction is unobservable only for limits that admit nothing. */
  lemma RacingEvictionObservable(limits: Name -> Limit)
    ensures (forall es :: UnnoticedEvenRacing(limits, es)) <==> (forall k :: limits(k).burstSize < 1)
  {
    if forall k :: limits(k).burstSize < 1 {
      forall es ensures UnnoticedEvenRacing(limits, es) {
        if Run(limits, es) {
          AlwaysDry(limits, es);
        }
      }
    } else {
      var k :| limits(k).burstSize >= 1;
      RaceTold(limits, Name(""), k);
      assert !UnnoticedEvenRacing(limits, Race(limits(k), Name(""), k));
    }
  }
}
