// internal/gateway/middleware/rate_limit_advanced.go: per-client, per-endpoint token buckets and the
// eviction of idle clients.

/** allowRequest holds two locks one after the other, so a request is two atomic steps: finding the
    client, then serving the request from the client it found.  Clients live on a small heap, because
    a client evicted between the two steps is still the one that serves the request. */
module GatewayLimiter {
  import opened TokenBuckets

  /** A client object, and the address it was made for. */
  datatype Client = Client(ip: Name, endpoints: map<Name, Bucket>)

  /** `clients` maps addresses to client objects, and `calls` the requests under way to the one they found. */
  datatype Limiter = Limiter(clients: map<Name, nat>, heap: seq<Client>, calls: map<nat, nat>)

  datatype Act = Find(call: nat, ip: Name) | Serve(call: nat, endpoint: Name) | Sweep

  datatype Event = Event(act: Act, now: real)

  const IDLE := 600.0

  predicate Expired(client: map<Name, Bucket>, cutoff: real) {
    forall e :: e in client ==> client[e].lastUpdate <= cutoff
  }

  predicate Sound(l: Limiter) {
    && (forall ip :: ip in l.clients ==> l.clients[ip] < |l.heap| && l.heap[l.clients[ip]].ip == ip)
    && (forall c :: c in l.calls ==> l.calls[c] < |l.heap|)
  }

  predicate Enabled(l: Limiter, a: Act) {
    match a
    case Find(c, _) => c !in l.calls
    case Serve(c, _) => c in l.calls
    case Sweep => true
  }

  function FindStep(l: Limiter, c: nat, ip: Name): Limiter {
    if ip in l.clients then l.(calls := l.calls[c := l.clients[ip]])
    else Limiter(l.clients[ip := |l.heap|], l.heap + [Client(ip, map[])], l.calls[c := |l.heap|])
  }

  function BucketFor(client: map<Name, Bucket>, endpoint: Name, limit: Limit, now: real): Bucket {
    if endpoint in client then client[endpoint] else Full(limit, now)
  }

  function ServeStep(l: Limiter, limits: Name -> Limit, c: nat, endpoint: Name, now: real): (Limiter, bool)
    requires Sound(l) && c in l.calls
  {
    var client := l.heap[l.calls[c]];
    var drawn := Draw(BucketFor(client.endpoints, endpoint, limits(endpoint), now), now);
    (l.(heap := l.heap[l.calls[c] := client.(endpoints := client.endpoints[endpoint := drawn.bucket])],
        calls := l.calls - {c}),
     drawn.allowed)
  }

  function SweepStep(l: Limiter, now: real): Limiter
    requires Sound(l)
  {
    l.(clients := map ip | ip in l.clients && !Expired(l.heap[l.clients[ip]].endpoints, now - IDLE) :: l.clients[ip])
  }

  /** The limiter after a run from empty, and the answers it gave. */
  datatype Played = Played(limiter: Limiter, answers: seq<bool>)

  const EMPTY := Played(Limiter(map[], [], map[]), [])

  function PlayOne(p: Played, limits: Name -> Limit, e: Event): (r: Played)
    requires Sound(p.limiter) && Enabled(p.limiter, e.act)
    ensures Sound(r.limiter)
  {
    match e.act
    case Find(c, ip) => p.(limiter := FindStep(p.limiter, c, ip))
    case Serve(c, endpoint) =>
      var served := ServeStep(p.limiter, limits, c, endpoint, e.now);
      Played(served.0, p.answers + [served.1])
    case Sweep => p.(limiter := SweepStep(p.limiter, e.now))
  }

  function LastTime(es: seq<Event>): real {
    if |es| == 0 then 0.0 else es[|es| - 1].now
  }

  /** Calls are found before they are served, and the clock, from 0, does not go back. */
  predicate Run(limits: Name -> Limit, es: seq<Event>)
    decreases |es|, 0
  {
    |es| > 0 ==>
      && Run(limits, es[..|es| - 1])
      && Enabled(Play(limits, es[..|es| - 1]).limiter, es[|es| - 1].act)
      && LastTime(es[..|es| - 1]) <= es[|es| - 1].now
  }

  function Play(limits: Name -> Limit, es: seq<Event>): (r: Played)
    requires Run(limits, es)
    ensures Sound(r.limiter)
    decreases |es|, 1
  {
    if |es| == 0 then EMPTY else PlayOne(Play(limits, es[..|es| - 1]), limits, es[|es| - 1])
  }

  /** The same run without the sweeps. */
  function Unswept(es: seq<Event>): seq<Event>
  {
    if |es| == 0 then []
    else Unswept(es[..|es| - 1]) + if es[|es| - 1].act.Sweep? then [] else [es[|es| - 1]]
  }

  /** No sweep evicts the client of a request that is between its two steps. */
  predicate Quiet(limits: Name -> Limit, es: seq<Event>)
    requires Run(limits, es)
    decreases |es|
  {
    |es| > 0 ==>
      var l, e := Play(limits, es[..|es| - 1]).limiter, es[|es| - 1];
      && Quiet(limits, es[..|es| - 1])
      && (e.act.Sweep? ==> forall c :: c in l.calls ==> !Expired(l.heap[l.calls[c]].endpoints, e.now - IDLE))
  }

  function ClientOf(l: Limiter, ip: Name): map<Name, Bucket>
    requires Sound(l)
  {
    if ip in l.clients then l.heap[l.clients[ip]].endpoints else map[]
  }

  lemma FindClients(l: Limiter, c: nat, ip: Name, jp: Name)
    requires Sound(l)
    ensures Sound(FindStep(l, c, ip)) && ClientOf(FindStep(l, c, ip), jp) == ClientOf(l, jp)
  {
  }

  // ---- The limiter as it is written ----

  method AllExpired(endpoints: map<Name, Bucket>, cutoff: real) returns (all: bool)
    ensures all == Expired(endpoints, cutoff)
  {
    var left := endpoints.Keys;
    while left != {}
      invariant left <= endpoints.Keys
      invariant forall e :: e in endpoints && e !in left ==> endpoints[e].lastUpdate <= cutoff
      decreases left
    {
      var e :| e in left;
      if endpoints[e].lastUpdate > cutoff {
        return false;
      }
      left := left - {e};
    }
    return true;
  }

  class AdvancedRateLimiter {
    const limits: Name -> Limit
    var clients: map<Name, nat>
    var heap: seq<Client>
    var calls: map<nat, nat>

    constructor (limits: Name -> Limit)
      ensures this.limits == limits && Valid() && State() == EMPTY.limiter
    {
      this.limits := limits;
      clients, heap, calls := map[], [], map[];
    }

    ghost function State(): Limiter
      reads this
    {
      Limiter(clients, heap, calls)
    }

    ghost predicate Valid()
      reads this
    {
      Sound(State())
    }

    /** allowRequest's first critical section. */
    method FindClient(call: nat, ip: Name)
      requires Valid() && call !in calls
      modifies this
      ensures Valid() && State() == FindStep(old(State()), call, ip)
    {
      FindClients(State(), call, ip, ip);
      if ip !in clients {
        heap := heap + [Client(ip, map[])];
        clients := clients[ip := |heap| - 1];
      }
      calls := calls[call := clients[ip]];
    }

    /** Its second one. */
    method UseClient(call: nat, endpoint: Name, now: real) returns (allowed: bool)
      requires Valid() && call in calls
      modifies this
      ensures Valid() && (State(), allowed) == ServeStep(old(State()), limits, call, endpoint, now)
    {
      var at := calls[call];
      var endpoints := heap[at].endpoints;
      var limit := limits(endpoint);
      if endpoint !in endpoints {
        endpoints := endpoints[endpoint := Full(limit, now)];
      }
      var bucket := endpoints[endpoint];
      var tokens := Min(bucket.maxTokens, bucket.tokens + Earned(now - bucket.lastUpdate, bucket.refillRate));
      allowed := tokens >= 1.0;
      if allowed {
        tokens := tokens - 1.0;
      }
      bucket := bucket.(tokens := tokens, lastUpdate := now);
      assert endpoints[endpoint := bucket] == old(heap)[at].endpoints[endpoint := bucket];
      heap := heap[at := heap[at].(endpoints := endpoints[endpoint := bucket])];
      calls := calls - {call};
    }

    method Cleanup(now: real)
      requires Valid()
      modifies this`clients
      ensures Valid() && State() == SweepStep(old(State()), now)
    {
      var cutoff := now - IDLE;
      var left := clients.Keys;
      while left != {}
        invariant left <= old(clients).Keys && clients.Keys <= old(clients).Keys
        invariant forall ip :: ip in clients ==> clients[ip] == old(clients)[ip]
        invariant forall ip :: ip in old(clients) && ip in left ==> ip in clients
        invariant forall ip :: ip in old(clients) && ip !in left ==>
                    (ip in clients <==> !Expired(heap[old(clients)[ip]].endpoints, cutoff))
        decreases left
      {
        var ip :| ip in left;
        var allExpired := AllExpired(heap[clients[ip]].endpoints, cutoff);
        if allExpired {
          clients := clients - {ip};
        }
        left := left - {ip};
      }
      assert clients == SweepStep(old(State()), now).clients;
    }
  }
}
