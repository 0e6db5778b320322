// internal/gateway/middleware/rate_limit_advanced.go: what one address gets through to one endpoint.

module GatewayRate {
  import opened TokenBuckets
  import opened GatewayLimiter
  import opened GatewayEviction

  predicate Fit(b: Bucket, limit: Limit, now: real) {
    && b.maxTokens == limit.burstSize as real && b.refillRate == limit.requestsPerMin as real / 60.0
    && 0.0 <= b.tokens <= b.maxTokens && b.lastUpdate <= now
  }

  predicate FitFor(client: map<Name, Bucket>, endpoint: Name, limit: Limit, now: real) {
    endpoint in client ==> Fit(client[endpoint], limit, now)
  }

  /** A limiter as a quiet run leaves it by time `now`, as far as one endpoint goes. */
  ghost predicate Ready(l: Limiter, endpoint: Name, limit: Limit, now: real) {
    Settled(l) && forall i :: 0 <= i < |l.heap| ==> FitFor(l.heap[i].endpoints, endpoint, limit, now)
  }

  /** The tokens the address's next request to the endpoint would find. */
  function Available(l: Limiter, ip: Name, endpoint: Name, limit: Limit, now: real): real
    requires Sound(l)
  {
    Refilled(BucketFor(ClientOf(l, ip), endpoint, limit, now), now).tokens
  }

  predicate Sensible(limit: Limit) {
    limit.burstSize >= 0 && limit.requestsPerMin >= 0
  }

  lemma FullFits(limit: Limit, now: real)
    requires Sensible(limit)
    ensures Fit(Full(limit, now), limit, now) && Refilled(Full(limit, now), now) == Full(limit, now)
  {
    SameInstant(Full(limit, now), now);
  }

  lemma ClientFits(l: Limiter, ip: Name, endpoint: Name, limit: Limit, now: real)
    requires Ready(l, endpoint, limit, now) && Sensible(limit)
    ensures Fit(BucketFor(ClientOf(l, ip), endpoint, limit, now), limit, now)
  {
    FullFits(limit, now);
    if ip in l.clients {
      assert FitFor(l.heap[l.clients[ip]].endpoints, endpoint, limit, now);
    }
  }

  /** Between two instants the tokens grow by at most the rate times the time between them. */
  lemma AvailableLater(l: Limiter, ip: Name, endpoint: Name, limit: Limit, before: real, now: real)
    requires Ready(l, endpoint, limit, before) && Sensible(limit) && before <= now
    ensures Ready(l, endpoint, limit, now)
    ensures 0.0 <= Available(l, ip, endpoint, limit, now) <=
            Available(l, ip, endpoint, limit, before) + Earned(now - before, limit.requestsPerMin as real / 60.0)
    ensures Available(l, ip, endpoint, limit, now) <= limit.burstSize as real
  {
    forall i | 0 <= i < |l.heap| ensures FitFor(l.heap[i].endpoints, endpoint, limit, now) {
      assert FitFor(l.heap[i].endpoints, endpoint, limit, before);
    }
    ClientFits(l, ip, endpoint, limit, before);
    FullFits(limit, before);
    FullFits(limit, now);
    Grows(0.0, now - before, limit.requestsPerMin as real / 60.0);
    var b := BucketFor(ClientOf(l, ip), endpoint, limit, before);
    Earns(b, now);
    EarnedMore(before - b.lastUpdate, now - before, b.refillRate);
    assert (before - b.lastUpdate) + (now - before) == now - b.lastUpdate;
  }

  /** The event lets a request from the address to the endpoint through. */
  predicate LetsThrough(l: Limiter, limits: Name -> Limit, e: Event, ip: Name, endpoint: Name)
    requires Sound(l) && Enabled(l, e.act)
  {
    e.act.Serve? && e.act.endpoint == endpoint && CallerOf(l, e.act.call) == ip
    && ServeStep(l, limits, e.act.call, endpoint, e.now).1
  }

  lemma FindReady(l: Limiter, c: nat, ip: Name, endpoint: Name, limit: Limit, now: real)
    requires Ready(l, endpoint, limit, now)
    ensures Ready(FindStep(l, c, ip), endpoint, limit, now)
  {
    FindSettled(l, c, ip);
    var l' := FindStep(l, c, ip);
    forall i | 0 <= i < |l'.heap| ensures FitFor(l'.heap[i].endpoints, endpoint, limit, now) {
      if i < |l.heap| {
        assert FitFor(l.heap[i].endpoints, endpoint, limit, now);
      }
    }
  }

  lemma DrawFits(b: Bucket, limit: Limit, now: real)
    requires Fit(b, limit, now) && Sensible(limit)
    ensures Fit(Draw(b, now).bucket, limit, now)
  {
    Earns(b, now);
  }

  lemma ServeReady(l: Limiter, limits: Name -> Limit, c: nat, e: Name, endpoint: Name, now: real)
    requires Ready(l, endpoint, limits(endpoint), now) && Sensible(limits(endpoint)) && c in l.calls
    ensures Ready(ServeStep(l, limits, c, e, now).0, endpoint, limits(endpoint), now)
  {
    ServeSettled(l, limits, c, e, now);
    FullFits(limits(endpoint), now);
    var l', client := ServeStep(l, limits, c, e, now).0, l.heap[l.calls[c]].endpoints;
    assert FitFor(client, endpoint, limits(endpoint), now);
    DrawFits(BucketFor(client, endpoint, limits(endpoint), now), limits(endpoint), now);
    forall i | 0 <= i < |l'.heap| ensures FitFor(l'.heap[i].endpoints, endpoint, limits(endpoint), now) {
      assert FitFor(l.heap[i].endpoints, endpoint, limits(endpoint), now);
    }
  }

  /** A request let through takes a token of its address and endpoint; no other request takes one. */
  lemma ServeTakes(l: Limiter, limits: Name -> Limit, e: Event, ip: Name, endpoint: Name)
    requires Ready(l, endpoint, limits(endpoint), e.now) && Sensible(limits(endpoint)) && e.act.Serve? && e.act.call in l.calls
    ensures var l' := ServeStep(l, limits, e.act.call, e.act.endpoint, e.now).0;
            Sound(l') && Available(l', ip, endpoint, limits(endpoint), e.now) ==
            Available(l, ip, endpoint, limits(endpoint), e.now) - if LetsThrough(l, limits, e, ip, endpoint) then 1.0 else 0.0
  {
    assert Current(l, e.act.call);
    ServeClients(l, limits, e.act.call, e.act.endpoint, e.now, ip);
    ClientFits(l, ip, endpoint, limits(endpoint), e.now);
    DrawnNow(BucketFor(ClientOf(l, ip), endpoint, limits(endpoint), e.now), e.now);
  }

  /** A sweep evicts only what has filled up anyway, if the limit is patient. */
  lemma SweepTakesNothing(l: Limiter, ip: Name, endpoint: Name, limit: Limit, now: real)
    requires Ready(l, endpoint, limit, now) && Sensible(limit) && Patient(limit)
    requires forall c :: c in l.calls ==> !Expired(l.heap[l.calls[c]].endpoints, now - IDLE)
    ensures Ready(SweepStep(l, now), endpoint, limit, now)
    ensures Available(SweepStep(l, now), ip, endpoint, limit, now) == Available(l, ip, endpoint, limit, now)
  {
    var l' := SweepStep(l, now);
    forall c | c in l'.calls ensures Current(l', c) {
      assert Current(l, c);
    }
    ClientFits(l, ip, endpoint, limit, now);
    FullFits(limit, now);
    var b := BucketFor(ClientOf(l, ip), endpoint, limit, now);
    if ip in l.clients && ip !in l'.clients && endpoint in ClientOf(l, ip) {
      if limit.burstSize >= 1 {
        IdleIsFull(b, limit, now);
      } else {
        Earns(b, now);
      }
    }
  }

  lemma StepTakes(l: Limiter, limits: Name -> Limit, p: Played, e: Event, ip: Name, endpoint: Name)
    requires l == p.limiter && Ready(l, endpoint, limits(endpoint), e.now) && Enabled(l, e.act)
    requires Sensible(limits(endpoint)) && Patient(limits(endpoint))
    requires e.act.Sweep? ==> forall c :: c in l.calls ==> !Expired(l.heap[l.calls[c]].endpoints, e.now - IDLE)
    ensures Ready(PlayOne(p, limits, e).limiter, endpoint, limits(endpoint), e.now)
    ensures Available(PlayOne(p, limits, e).limiter, ip, endpoint, limits(endpoint), e.now) ==
            Available(l, ip, endpoint, limits(endpoint), e.now) - if LetsThrough(l, limits, e, ip, endpoint) then 1.0 else 0.0
  {
    match e.act
    case Find(c, jp) =>
      FindReady(l, c, jp, endpoint, limits(endpoint), e.now);
      FindClients(l, c, jp, ip);
    case Serve(c, f) =>
      ServeReady(l, limits, c, f, endpoint, e.now);
      ServeTakes(l, limits, e, ip, endpoint);
    case Sweep => SweepTakesNothing(l, ip, endpoint, limits(endpoint), e.now);
  }

  /** How many requests from the address to the endpoint the events from position `from` on let through. */
  function Through(limits: Name -> Limit, es: seq<Event>, from: nat, ip: Name, endpoint: Name): nat
    requires Run(limits, es)
  {
    if |es| <= from then 0
    else
      Through(limits, es[..|es| - 1], from, ip, endpoint) +
      if LetsThrough(Play(limits, es[..|es| - 1]).limiter, limits, es[|es| - 1], ip, endpoint) then 1 else 0
  }

  lemma {:induction false} QuietReady(limits: Name -> Limit, es: seq<Event>, endpoint: Name)
    requires Run(limits, es) && Quiet(limits, es) && Sensible(limits(endpoint)) && Patient(limits(endpoint))
    ensures Ready(Play(limits, es).limiter, endpoint, limits(endpoint), LastTime(es))
  {
    if |es| > 0 {
      var front, e := QuietFront(limits, es);
      QuietReady(limits, front, endpoint);
      var p := Play(limits, front);
      AvailableLater(p.limiter, Name(""), endpoint, limits(endpoint), LastTime(front), e.now);
      StepTakes(p.limiter, limits, p, e, Name(""), endpoint);
    }
  }

  /** Requests let through since `start`, with the tokens left, are covered by a burst and what was earned. */
  predicate Covered(through: nat, l: Limiter, ip: Name, endpoint: Name, limit: Limit, now: real, start: real)
    requires Sound(l)
  {
    through as real + Available(l, ip, endpoint, limit, now)
    <= limit.burstSize as real + Earned(now - start, limit.requestsPerMin as real / 60.0)
  }

  lemma ThroughNext(limits: Name -> Limit, es: seq<Event>, front: seq<Event>, e: Event, from: nat, ip: Name, endpoint: Name)
    requires Run(limits, es) && |es| > from && es == front + [e] && front == es[..|es| - 1]
    ensures Run(limits, front) && LastTime(es) == e.now && LastTime(front) <= e.now && Enabled(Play(limits, front).limiter, e.act)
    ensures Play(limits, es) == PlayOne(Play(limits, front), limits, e)
    ensures Through(limits, es, from, ip, endpoint) == Through(limits, front, from, ip, endpoint)
            + if LetsThrough(Play(limits, front).limiter, limits, e, ip, endpoint) then 1 else 0
  {
  }

  /** From tokens found at one instant to those left at the next, `taken` of them gone. */
  lemma StaysCovered(through: nat, taken: nat, found: real, later: real, left: real, burst: real, rate: real, x: real, y: real)
    requires through as real + found <= burst + Earned(x, rate)
    requires later <= found + Earned(y, rate) && left == later - taken as real
    ensures (through + taken) as real + left <= burst + Earned(x + y, rate)
  {
    EarnedMore(x, y, rate);
  }

  lemma CoveredStep(limits: Name -> Limit, p: Played, e: Event, before: real, through: nat, start: real, ip: Name, endpoint: Name)
    requires Sensible(limits(endpoint)) && Patient(limits(endpoint))
    requires Ready(p.limiter, endpoint, limits(endpoint), before) && before <= e.now && Enabled(p.limiter, e.act)
    requires e.act.Sweep? ==>
               forall c :: c in p.limiter.calls ==> !Expired(p.limiter.heap[p.limiter.calls[c]].endpoints, e.now - IDLE)
    requires Covered(through, p.limiter, ip, endpoint, limits(endpoint), before, start)
    ensures Covered(through + if LetsThrough(p.limiter, limits, e, ip, endpoint) then 1 else 0,
                    PlayOne(p, limits, e).limiter, ip, endpoint, limits(endpoint), e.now, start)
  {
    var limit, taken := limits(endpoint), if LetsThrough(p.limiter, limits, e, ip, endpoint) then 1 else 0;
    AvailableLater(p.limiter, ip, endpoint, limit, before, e.now);
    StepTakes(p.limiter, limits, p, e, ip, endpoint);
    var found, later := Available(p.limiter, ip, endpoint, limit, before), Available(p.limiter, ip, endpoint, limit, e.now);
    var left, rate := Available(PlayOne(p, limits, e).limiter, ip, endpoint, limit, e.now), limit.requestsPerMin as real / 60.0;
    StaysCovered(through, taken, found, later, left, limit.burstSize as real, rate, before - start, e.now - before);
    assert (before - start) + (e.now - before) == e.now - start;
    assert (through + taken) as real + left <= limit.burstSize as real + Earned(e.now - start, rate);
  }

  lemma {:induction false} WindowCovered(limits: Name -> Limit, es: seq<Event>, from: nat, start: real, ip: Name, endpoint: Name)
    requires Run(limits, es) && Quiet(limits, es) && from <= |es| && start == LastTime(es[..from])
    requires Sensible(limits(endpoint)) && Patient(limits(endpoint))
    ensures Covered(Through(limits, es, from, ip, endpoint), Play(limits, es).limiter, ip, endpoint, limits(endpoint), LastTime(es), start)
  {
    if |es| == from {
      assert es[..from] == es;
      QuietReady(limits, es, endpoint);
      AvailableLater(Play(limits, es).limiter, ip, endpoint, limits(endpoint), LastTime(es), LastTime(es));
      assert Earned(start - start, limits(endpoint).requestsPerMin as real / 60.0) == 0.0;
    } else {
      var front, e := QuietFront(limits, es);
      assert front[..from] == es[..from];
      WindowCovered(limits, front, from, start, ip, endpoint);
      QuietReady(limits, front, endpoint);
      ThroughNext(limits, es, front, e, from, ip, endpoint);
      CoveredStep(limits, Play(limits, front), e, LastTime(front), Through(limits, front, from, ip, endpoint), start, ip, endpoint);
    }
  }

  /** At most one burst and what the rate per minute earns in the time. */
  predicate InRate(limit: Limit, through: nat, time: real) {
    through as real <= limit.burstSize as real + Earned(time, limit.requestsPerMin as real / 60.0)
  }

  /** In any stretch of a quiet run, from `start` to `end`, an address gets through to an endpoint with a
      patient limit at most one burst and what the rate per minute earns in that time, sweeps or not. */
  lemma RateBound(limits: Name -> Limit, es: seq<Event>, from: nat, start: real, end: real, ip: Name, endpoint: Name, limit: Limit)
    requires Run(limits, es) && Quiet(limits, es) && from <= |es| && start == LastTime(es[..from]) && end == LastTime(es)
    requires limit == limits(endpoint) && Sensible(limit) && Patient(limit)
    ensures InRate(limit, Through(limits, es, from, ip, endpoint), end - start)
  {
    WindowCovered(limits, es, from, start, ip, endpoint);
    QuietReady(limits, es, endpoint);
    CoverBounds(Through(limits, es, from, ip, endpoint), Play(limits, es).limiter, ip, endpoint, limit, end, start);
  }

  lemma CoverBounds(through: nat, l: Limiter, ip: Name, endpoint: Name, limit: Limit, now: real, start: real)
    requires Ready(l, endpoint, limit, now) && Sensible(limit) && Covered(through, l, ip, endpoint, limit, now, start)
    ensures InRate(limit, through, now - start)
  {
    AvailableLater(l, ip, endpoint, limit, now, now);
  }

  // ---- The bound fails for every other limit ----

  /** All requests come from the address and go to the endpoint. */
  predicate OnlyFrom(es: seq<Event>, ip: Name, endpoint: Name) {
    forall i :: 0 <= i < |es| ==>
      match es[i].act
      case Find(_, jp) => jp == ip
      case Serve(_, e) => e == endpoint
      case Sweep => true
  }

  function Trues(answers: seq<bool>): nat {
    if |answers| == 0 then 0 else Trues(answers[..|answers| - 1]) + if answers[|answers| - 1] then 1 else 0
  }

  lemma {:induction false} AllTrues(answers: seq<bool>)
    requires AllTrue(answers)
    ensures Trues(answers) == |answers|
  {
    if |answers| > 0 {
      AllTrues(answers[..|answers| - 1]);
    }
  }

  predicate OwnHeap(l: Limiter, ip: Name) {
    forall i :: 0 <= i < |l.heap| ==> l.heap[i].ip == ip
  }

  lemma OwnStep(limits: Name -> Limit, p: Played, e: Event, ip: Name, endpoint: Name)
    requires Sound(p.limiter) && Enabled(p.limiter, e.act) && OwnHeap(p.limiter, ip) && OnlyFrom([e], ip, endpoint)
    ensures var q := PlayOne(p, limits, e);
            && OwnHeap(q.limiter, ip)
            && Trues(q.answers) == Trues(p.answers) + if LetsThrough(p.limiter, limits, e, ip, endpoint) then 1 else 0
  {
    assert [e][0] == e;
    if e.act.Serve? {
      var answer := ServeStep(p.limiter, limits, e.act.call, e.act.endpoint, e.now).1;
      assert (p.answers + [answer])[..|p.answers|] == p.answers;
    }
  }

  lemma {:induction false} ThroughIsTrues(limits: Name -> Limit, es: seq<Event>, ip: Name, endpoint: Name)
    requires Run(limits, es) && OnlyFrom(es, ip, endpoint)
    ensures OwnHeap(Play(limits, es).limiter, ip) && Through(limits, es, 0, ip, endpoint) == Trues(Play(limits, es).answers)
  {
    if |es| > 0 {
      var front, e := es[..|es| - 1], es[|es| - 1];
      ThroughIsTrues(limits, front, ip, endpoint);
      ThroughNext(limits, es, front, e, 0, ip, endpoint);
      OwnStep(limits, Play(limits, front), e, ip, endpoint);
    }
  }

  lemma {:induction false} BatchOnlyFrom(n: nat, ip: Name, endpoint: Name, now: real)
    ensures OnlyFrom(Batch(n, ip, endpoint, now), ip, endpoint)
    ensures n > 0 ==> |Batch(n, ip, endpoint, now)| > 0 && LastTime(Batch(n, ip, endpoint, now)) == now
  {
    if n > 0 {
      BatchOnlyFrom(n - 1, ip, endpoint, now);
    }
  }

  lemma OnlyFromBoth(a: seq<Event>, b: seq<Event>, ip: Name, endpoint: Name)
    requires OnlyFrom(a, ip, endpoint) && OnlyFrom(b, ip, endpoint)
    ensures OnlyFrom(a + b, ip, endpoint) && (|b| > 0 ==> LastTime(a + b) == LastTime(b))
  {
  }

  lemma BothTrue(a: seq<bool>, b: seq<bool>)
    requires AllTrue(a) && AllTrue(b)
    ensures AllTrue(a + b)
  {
  }

  lemma BurstsOnlyFrom(n: nat, ip: Name, endpoint: Name)
    requires n > 0
    ensures var es := Batch(n, ip, endpoint, 0.0) + [Event(Sweep, IDLE)] + Batch(n, ip, endpoint, IDLE);
            OnlyFrom(es, ip, endpoint) && LastTime(es) == 600.0
  {
    BatchOnlyFrom(n, ip, endpoint, 0.0);
    BatchOnlyFrom(n, ip, endpoint, IDLE);
    OnlyFromBoth(Batch(n, ip, endpoint, 0.0), [Event(Sweep, IDLE)], ip, endpoint);
    OnlyFromBoth(Batch(n, ip, endpoint, 0.0) + [Event(Sweep, IDLE)], Batch(n, ip, endpoint, IDLE), ip, endpoint);
  }

  /** A burst, a sweep ten minutes later and another burst, every request of which is let through. */
  lemma TwoBursts(limits: Name -> Limit, ip: Name, endpoint: Name) returns (es: seq<Event>)
    requires limits(endpoint).burstSize >= 1
    ensures Run(limits, es) && Quiet(limits, es) && OnlyFrom(es, ip, endpoint) && LastTime(es) == 600.0
    ensures AllTrue(Play(limits, es).answers) && |Play(limits, es).answers| == 2 * limits(endpoint).burstSize
  {
    var limit := limits(endpoint);
    var first, all := Batch(limit.burstSize, ip, endpoint, 0.0), DrawMany(Full(limit, 0.0), limit.burstSize, 0.0);
    SweptMeets(limits, ip, endpoint);
    BurstsOnlyFrom(limit.burstSize, ip, endpoint);
    BurstAllowed(limit, limit.burstSize, 0.0);
    BurstAllowed(limit, limit.burstSize, IDLE);
    var again;
    es, again := PlayBatch(limits, first + [Event(Sweep, IDLE)], limit.burstSize, ip, endpoint, IDLE, Full(limit, IDLE));
    BothTrue(all.answers, again.answers);
  }

  ghost predicate KeepsRate(limits: Name -> Limit, es: seq<Event>, from: nat, ip: Name, endpoint: Name) {
    Run(limits, es) && Quiet(limits, es) && from <= |es| ==>
      InRate(limits(endpoint), Through(limits, es, from, ip, endpoint), LastTime(es) - LastTime(es[..from]))
  }

  lemma Exceeds(limits: Name -> Limit, ip: Name, endpoint: Name) returns (es: seq<Event>)
    requires !Patient(limits(endpoint))
    ensures !KeepsRate(limits, es, 0, ip, endpoint)
  {
    var limit := limits(endpoint);
    es := TwoBursts(limits, ip, endpoint);
    ThroughIsTrues(limits, es, ip, endpoint);
    AllTrues(Play(limits, es).answers);
    SecondBurst(limit, Through(limits, es, 0, ip, endpoint), LastTime(es) - LastTime(es[..0]));
  }

  lemma SecondBurst(limit: Limit, through: nat, time: real)
    requires !Patient(limit) && through == 2 * limit.burstSize && time == 600.0
    ensures !InRate(limit, through, time)
  {
    assert Earned(600.0, limit.requestsPerMin as real / 60.0) == 10.0 * limit.requestsPerMin as real;
  }

  /** Quiet runs keep the rate in every stretch exactly when the endpoint's limit is patient: any other
      lets a second burst through when an eviction has made the client new. */
  lemma RateKeptExactly(limits: Name -> Limit, endpoint: Name)
    requires Sensible(limits(endpoint))
    ensures (forall es, from: nat, ip :: KeepsRate(limits, es, from, ip, endpoint)) <==> Patient(limits(endpoint))
  {
    if Patient(limits(endpoint)) {
      forall es, from: nat, ip ensures KeepsRate(limits, es, from, ip, endpoint) {
        if Run(limits, es) && Quiet(limits, es) && from <= |es| {
          RateBound(limits, es, from, LastTime(es[..from]), LastTime(es), ip, endpoint, limits(endpoint));
        }
      }
    } else {
      var es := Exceeds(limits, Name(""), endpoint);
    }
  }
}
