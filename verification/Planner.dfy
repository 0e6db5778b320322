/** The staged planner (internal/engine/executor.go): levelled Kahn sort of a workflow. */
module Planner {
  import opened Reachability
  import opened Workflow

  datatype PlanNode = PlanNode(id: Id, dependencies: seq<Id>, outputs: seq<Id>, stage: nat)

  datatype Plan = Plan(stages: seq<seq<PlanNode>>, triggerId: Id, totalNodes: nat)

  datatype PlanResult = Planned(plan: Plan) | NoTrigger | CyclesOrDisconnected

  // ---- What a plan is for ----

  /** The connections whose two ends are nodes. */
  function InnerEdges(w: Definition): Edges {
    set x | x in EdgesOf(w.connections) && x.0 in NodeIds(w) && x.1 in NodeIds(w)
  }

  ghost predicate IsSource(e: Edges, n: Id) {
    forall m :: (m, n) !in e
  }

  /** The workflows that can be staged from trigger `t`. */
  ghost predicate Plannable(w: Definition, t: Id) {
    && DistinctIds(w)
    && t in NodeIds(w)
    && (forall n {:trigger IsSource(EdgesOf(w.connections), n)} ::
          n in NodeIds(w) ==> (n == t <==> IsSource(EdgesOf(w.connections), n)))
    && (forall a, b :: (a, b) in EdgesOf(w.connections) && b in NodeIds(w) ==> a in NodeIds(w))
    && Acyclic(InnerEdges(w))
  }

  function PlanNodeFor(w: Definition, x: Id, k: nat): PlanNode {
    PlanNode(x, Incoming(w.connections, x), Outgoing(w.connections, x), k)
  }

  /** Stage by stage, the plan lists every levelled node once, on its level, with its neighbours. */
  predicate Lays(w: Definition, stages: seq<seq<PlanNode>>, level: map<Id, nat>) {
    && (forall i :: 0 <= i < |stages| ==> |stages[i]| > 0)
    && (forall i, j :: 0 <= i < |stages| && 0 <= j < |stages[i]| ==>
          && stages[i][j].id in level && level[stages[i][j].id] == i
          && stages[i][j] == PlanNodeFor(w, stages[i][j].id, i))
    && (forall i, j, k :: 0 <= i < |stages| && 0 <= j < k < |stages[i]| ==> stages[i][j].id != stages[i][k].id)
    && (forall x :: x in level ==> level[x] < |stages| && ListedIn(stages[level[x]], x))
  }

  /** Levels grow along every connection into a levelled node, and no faster than they must. */
  ghost predicate Levels(e: Edges, t: Id, level: map<Id, nat>) {
    && (forall a, b :: (a, b) in e && b in level ==> a in level && level[a] < level[b])
    && (forall b {:trigger Tight(e, level, b)} :: b in level && b != t ==> Tight(e, level, b))
    && (t in level ==> level[t] == 0)
  }

  ghost predicate Tight(e: Edges, level: map<Id, nat>, b: Id)
    requires b in level
  {
    HasPredecessorAt(e, level, b, level[b] as int - 1)
  }

  ghost predicate HasPredecessorAt(e: Edges, level: map<Id, nat>, b: Id, k: int) {
    exists a :: (a, b) in e && a in level && level[a] == k
  }

  /** Every node is in exactly one stage and every connection leads to a strictly later stage. */
  ghost predicate ValidPlan(w: Definition, plan: Plan, level: map<Id, nat>) {
    && level.Keys == NodeIds(w)
    && plan.triggerId in level
    && plan.totalNodes == |w.nodes|
    && Lays(w, plan.stages, level)
    && Levels(EdgesOf(w.connections), plan.triggerId, level)
  }

  // ---- The code ----

  function ListAt(m: map<Id, seq<Id>>, x: Id): seq<Id> {
    if x in m then m[x] else []
  }

  function CountAt(m: map<Id, int>, x: Id): int {
    if x in m then m[x] else 0
  }

  ghost predicate OutputsOf(conns: seq<Connection>, m: map<Id, seq<Id>>) {
    forall x :: ListAt(m, x) == Outgoing(conns, x)
  }

  ghost predicate InputsOf(conns: seq<Connection>, m: map<Id, seq<Id>>) {
    forall x :: ListAt(m, x) == Incoming(conns, x)
  }

  ghost predicate DegreesOf(conns: seq<Connection>, m: map<Id, int>) {
    forall x :: CountAt(m, x) == InDegree(conns, x)
  }

  lemma OutputsMore(conns: seq<Connection>, c: Connection, m: map<Id, seq<Id>>)
    requires OutputsOf(conns, m)
    ensures OutputsOf(conns + [c], m[c.source := ListAt(m, c.source) + [c.target]])
  {
    var conns', m' := conns + [c], m[c.source := ListAt(m, c.source) + [c.target]];
    assert conns'[..|conns|] == conns;
    forall x ensures ListAt(m', x) == Outgoing(conns', x) {
      assert ListAt(m, x) == Outgoing(conns, x);
    }
  }

  lemma InputsMore(conns: seq<Connection>, c: Connection, m: map<Id, seq<Id>>)
    requires InputsOf(conns, m)
    ensures InputsOf(conns + [c], m[c.target := ListAt(m, c.target) + [c.source]])
  {
    var conns', m' := conns + [c], m[c.target := ListAt(m, c.target) + [c.source]];
    assert conns'[..|conns|] == conns;
    forall x ensures ListAt(m', x) == Incoming(conns', x) {
      assert ListAt(m, x) == Incoming(conns, x);
    }
  }

  lemma DegreesMore(conns: seq<Connection>, c: Connection, m: map<Id, int>)
    requires DegreesOf(conns, m)
    ensures DegreesOf(conns + [c], m[c.target := CountAt(m, c.target) + 1])
  {
    var conns', m' := conns + [c], m[c.target := CountAt(m, c.target) + 1];
    assert conns'[..|conns|] == conns;
    forall x ensures CountAt(m', x) == InDegree(conns', x) {
      assert CountAt(m, x) == InDegree(conns, x);
    }
  }

  method BuildAdjacency(w: Definition)
    returns (outputs: map<Id, seq<Id>>, inputs: map<Id, seq<Id>>, inDegree: map<Id, int>)
    ensures OutputsOf(w.connections, outputs) && InputsOf(w.connections, inputs) && DegreesOf(w.connections, inDegree)
  {
    outputs, inputs, inDegree := map[], map[], map[];
    for i := 0 to |w.nodes|
      invariant OutputsOf([], outputs) && InputsOf([], inputs) && DegreesOf([], inDegree)
    {
      var id := w.nodes[i].id;
      outputs, inputs, inDegree := outputs[id := []], inputs[id := []], inDegree[id := 0];
    }
    for i := 0 to |w.connections|
      invariant OutputsOf(w.connections[..i], outputs)
      invariant InputsOf(w.connections[..i], inputs)
      invariant DegreesOf(w.connections[..i], inDegree)
    {
      var c := w.connections[i];
      assert w.connections[..i + 1] == w.connections[..i] + [c];
      OutputsMore(w.connections[..i], c, outputs);
      InputsMore(w.connections[..i], c, inputs);
      DegreesMore(w.connections[..i], c, inDegree);
      outputs := outputs[c.source := ListAt(outputs, c.source) + [c.target]];
      inputs := inputs[c.target := ListAt(inputs, c.target) + [c.source]];
      inDegree := inDegree[c.target := CountAt(inDegree, c.target) + 1];
    }
    assert w.connections[..|w.connections|] == w.connections;
  }

  /** The identifier of the first node accepted by `ok`, or the empty one. */
  function FirstId(nodes: seq<Node>, ok: Node -> bool): Id {
    if nodes == [] then NO_ID else if ok(nodes[0]) then nodes[0].id else FirstId(nodes[1..], ok)
  }

  lemma {:induction false} FirstIdMeans(nodes: seq<Node>, ok: Node -> bool) returns (i: nat)
    ensures i <= |nodes| && (forall j :: 0 <= j < i ==> !ok(nodes[j]))
    ensures if i == |nodes| then FirstId(nodes, ok) == NO_ID else ok(nodes[i]) && FirstId(nodes, ok) == nodes[i].id
  {
    i := 0;
    if nodes != [] && !ok(nodes[0]) {
      i := FirstIdMeans(nodes[1..], ok);
      i := i + 1;
    }
  }

  /** The planner's trigger: the first trigger-typed node that no connection enters. */
  function PlanTrigger(w: Definition, isTrigger: string -> bool): Id {
    FirstId(w.nodes, (n: Node) => InDegree(w.connections, n.id) == 0 && isTrigger(n.nodeType))
  }

  lemma {:induction false} FirstIdIsMember(nodes: seq<Node>, ok: Node -> bool)
    ensures var t := FirstId(nodes, ok);
            t == NO_ID || exists i :: 0 <= i < |nodes| && nodes[i].id == t && ok(nodes[i])
  {
    if nodes != [] && !ok(nodes[0]) {
      FirstIdIsMember(nodes[1..], ok);
    }
  }

  method FindTrigger(w: Definition, inDegree: map<Id, int>, isTrigger: string -> bool) returns (t: Id)
    requires forall x :: CountAt(inDegree, x) == InDegree(w.connections, x)
    ensures t == PlanTrigger(w, isTrigger)
  {
    ghost var ok := (n: Node) => InDegree(w.connections, n.id) == 0 && isTrigger(n.nodeType);
    for i := 0 to |w.nodes|
      invariant FirstId(w.nodes, ok) == FirstId(w.nodes[i..], ok)
    {
      if CountAt(inDegree, w.nodes[i].id) == 0 && isTrigger(w.nodes[i].nodeType) {
        return w.nodes[i].id;
      }
    }
    return NO_ID;
  }

  ghost predicate Lowered(before: map<Id, int>, outs: seq<Id>, remaining: map<Id, int>) {
    forall x :: CountAt(remaining, x) == CountAt(before, x) - multiset(outs)[x]
  }

  ghost predicate ReachesZero(before: map<Id, int>, outs: seq<Id>, x: Id) {
    1 <= CountAt(before, x) <= multiset(outs)[x]
  }

  /** `next` is `queued` and, each once, the nodes whose count reached zero within `outs`. */
  ghost predicate Queued(before: map<Id, int>, queued: seq<Id>, outs: seq<Id>, next: seq<Id>) {
    && (forall x :: x in next <==> x in queued || ReachesZero(before, outs, x))
    && |queued| <= |next| && next[..|queued|] == queued
    && (forall i :: |queued| <= i < |next| ==> ReachesZero(before, outs, next[i]))
    && (forall i, j :: |queued| <= i < j < |next| ==> next[i] != next[j])
  }

  lemma ZeroMore(before: map<Id, int>, outs: seq<Id>, x: Id, y: Id)
    ensures ReachesZero(before, outs + [x], y) <==>
            ReachesZero(before, outs, y) || (y == x && CountAt(before, x) == multiset(outs)[x] + 1)
    ensures y == x && CountAt(before, x) == multiset(outs)[x] + 1 ==> !ReachesZero(before, outs, y)
    ensures multiset(outs + [x])[y] == multiset(outs)[y] + if y == x then 1 else 0
  {
  }

  lemma QueuedMore(before: map<Id, int>, queued: seq<Id>, outs: seq<Id>, x: Id, next: seq<Id>)
    requires Queued(before, queued, outs, next)
    ensures Queued(before, queued, outs + [x], if CountAt(before, x) == multiset(outs)[x] + 1 then next + [x] else next)
  {
    var next' := if CountAt(before, x) == multiset(outs)[x] + 1 then next + [x] else next;
    forall y ensures y in next' <==> y in queued || ReachesZero(before, outs + [x], y) {
      ZeroMore(before, outs, x, y);
    }
    forall i | |queued| <= i < |next'| ensures ReachesZero(before, outs + [x], next'[i]) {
      ZeroMore(before, outs, x, next'[i]);
    }
    ZeroMore(before, outs, x, x);
  }

  lemma LoweredMore(before: map<Id, int>, outs: seq<Id>, x: Id, remaining: map<Id, int>)
    requires Lowered(before, outs, remaining)
    ensures Lowered(before, outs + [x], remaining[x := CountAt(remaining, x) - 1])
  {
    forall y ensures CountAt(remaining[x := CountAt(remaining, x) - 1], y) == CountAt(before, y) - multiset(outs + [x])[y] {
      ZeroMore(before, outs, x, y);
    }
  }

  /** Decrements the counter of every target and queues those that reach zero, each once. */
  method Relax(outs: seq<Id>, before: map<Id, int>, queued: seq<Id>) returns (remaining: map<Id, int>, next: seq<Id>)
    ensures Lowered(before, outs, remaining) && Queued(before, queued, outs, next)
  {
    remaining, next := before, queued;
    for i := 0 to |outs|
      invariant Lowered(before, outs[..i], remaining) && Queued(before, queued, outs[..i], next)
    {
      assert outs[..i + 1] == outs[..i] + [outs[i]];
      LoweredMore(before, outs[..i], outs[i], remaining);
      QueuedMore(before, queued, outs[..i], outs[i], next);
      remaining := remaining[outs[i] := CountAt(remaining, outs[i]) - 1];
      if remaining[outs[i]] == 0 {
        next := next + [outs[i]];
      }
    }
    assert outs[..|outs|] == outs;
  }

  /** The nodes ready to run once the levelled ones are done. */
  ghost predicate Ready(w: Definition, t: Id, done: set<Id>, x: Id) {
    x in NodeIds(w) && x !in done && Pending(w.connections, x, done) == 0 && (x == t || InDegree(w.connections, x) > 0)
  }

  ghost predicate QueueHolds(w: Definition, t: Id, level: map<Id, nat>, queue: seq<Id>) {
    forall x :: x in NodeIds(w) ==> (x in queue <==> Ready(w, t, level.Keys, x))
  }

  ghost predicate QueueTight(e: Edges, t: Id, level: map<Id, nat>, k: nat, queue: seq<Id>) {
    forall x :: x in queue ==> (k == 0 && x == t) || HasPredecessorAt(e, level, x, k - 1)
  }

  ghost predicate CountsRight(conns: seq<Connection>, done: set<Id>, remaining: map<Id, int>) {
    forall x :: CountAt(remaining, x) == Pending(conns, x, done)
  }

  /** Appending a ready node on the current top level keeps the levels in order. */
  lemma LevelsExtend(e: Edges, t: Id, level: map<Id, nat>, k: nat, x: Id)
    requires Levels(e, t, level) && x !in level && (x == t ==> k == 0)
    requires forall a :: (a, x) in e ==> a in level && level[a] < k
    requires x == t || HasPredecessorAt(e, level, x, k - 1)
    ensures Levels(e, t, level[x := k])
  {
    var up := level[x := k];
    forall b | b in up && b != t ensures Tight(e, up, b) {
      assert b != x ==> Tight(e, level, b);
      var a :| (a, b) in e && a in level && level[a] == up[b] - 1;
      assert a in up && up[a] == up[b] - 1;
    }
  }

  /** What holds between two rounds of the planner's main loop. */
  ghost predicate Round(w: Definition, t: Id, k: nat, level: map<Id, nat>, remaining: map<Id, int>, queue: seq<Id>) {
    && t in NodeIds(w) && InDegree(w.connections, t) == 0
    && level.Keys <= NodeIds(w)
    && Levels(EdgesOf(w.connections), t, level)
    && (forall x :: x in level ==> level[x] < k)
    && CountsRight(w.connections, level.Keys, remaining)
    && QueueHolds(w, t, level, queue)
    && QueueTight(EdgesOf(w.connections), t, level, k, queue)
    && (k > 0 ==> t in level)
  }

  /** What holds inside a round, after some of the queue has been levelled on `k`. */
  ghost predicate Within(w: Definition, t: Id, k: nat, level: map<Id, nat>, now: map<Id, nat>,
                         remaining: map<Id, int>, next: seq<Id>) {
    && level.Keys <= now.Keys <= NodeIds(w)
    && (forall x :: x in now ==> now[x] == if x in level then level[x] else k)
    && Levels(EdgesOf(w.connections), t, now)
    && CountsRight(w.connections, now.Keys, remaining)
    && (forall y :: y in next <==> Freed(w.connections, level.Keys, now.Keys, y))
    && QueueTight(EdgesOf(w.connections), t, now, k + 1, next)
  }

  /** The last connection into `y` was served between `before` and `after`. */
  ghost predicate Freed(conns: seq<Connection>, before: set<Id>, after: set<Id>, y: Id) {
    Pending(conns, y, before) > 0 && Pending(conns, y, after) == 0
  }

  /** Serving `x` frees exactly the targets whose last pending connections come from it. */
  lemma FreedStep(conns: seq<Connection>, level: set<Id>, now: set<Id>, x: Id, y: Id)
    requires level <= now && x !in now
    ensures Pending(conns, y, now + {x}) == Pending(conns, y, now) - multiset(Outgoing(conns, x))[y]
    ensures Freed(conns, level, now + {x}, y) <==>
            Freed(conns, level, now, y) || 1 <= Pending(conns, y, now) <= multiset(Outgoing(conns, x))[y]
  {
    PendingDrop(conns, y, now, x);
    PendingMonotone(conns, y, level, now);
  }

  lemma TightStep(conns: seq<Connection>, e: Edges, t: Id, k: nat, now: map<Id, nat>, x: Id, queued: seq<Id>, next: seq<Id>)
    requires e == EdgesOf(conns) && x !in now
    requires QueueTight(e, t, now, k + 1, queued)
    requires forall y :: y in next ==> y in queued || y in Outgoing(conns, x)
    ensures QueueTight(e, t, now[x := k], k + 1, next)
  {
    var up := now[x := k];
    forall y | y in next ensures HasPredecessorAt(e, up, y, k) {
      if y in queued {
        var a :| (a, y) in e && a in now && now[a] == k;
        assert a in up && up[a] == k;
      } else {
        OutgoingMembers(conns, x, y);
        assert x in up && up[x] == k;
      }
    }
  }

  /** A queued node is ready, and only the trigger can be queued in the first round. */
  lemma QueuedIsReady(w: Definition, t: Id, k: nat, level: map<Id, nat>, remaining: map<Id, int>, queue: seq<Id>, x: Id)
    requires Round(w, t, k, level, remaining, queue)
    requires x in queue && x in NodeIds(w)
    ensures x !in level && (x == t ==> k == 0)
    ensures forall a :: (a, x) in EdgesOf(w.connections) ==> a in level
    ensures x == t || HasPredecessorAt(EdgesOf(w.connections), level, x, k - 1)
  {
    assert Ready(w, t, level.Keys, x);
    PendingZero(w.connections, x, level.Keys);
  }

  /** A predecessor keeps its level when more nodes are levelled. */
  lemma PredecessorStays(e: Edges, level: map<Id, nat>, now: map<Id, nat>, x: Id, k: int)
    requires HasPredecessorAt(e, level, x, k)
    requires forall a :: a in level ==> a in now && now[a] == level[a]
    ensures HasPredecessorAt(e, now, x, k)
  {
    var a :| (a, x) in e && a in level && level[a] == k;
    assert a in now && now[a] == k;
  }

  /** One queue entry: the node joins level `k` and its targets are relaxed. */
  lemma WithinStep(w: Definition, e: Edges, t: Id, k: nat, level: map<Id, nat>, now: map<Id, nat>, x: Id,
                   before: map<Id, int>, queued: seq<Id>, remaining: map<Id, int>, next: seq<Id>)
    requires e == EdgesOf(w.connections)
    requires Within(w, t, k, level, now, before, queued)
    requires x in NodeIds(w) && x !in now && (x == t ==> k == 0)
    requires forall a :: (a, x) in e ==> a in level
    requires forall y :: y in level ==> level[y] < k
    requires x == t || HasPredecessorAt(e, level, x, k - 1)
    requires forall y :: CountAt(remaining, y) == CountAt(before, y) - multiset(Outgoing(w.connections, x))[y]
    requires forall y :: y in next <==> y in queued || 1 <= CountAt(before, y) <= multiset(Outgoing(w.connections, x))[y]
    ensures Within(w, t, k, level, now[x := k], remaining, next)
  {
    var up := now[x := k];
    assert up.Keys == now.Keys + {x};
    assert Levels(e, t, up) by {
      if x != t {
        PredecessorStays(e, level, now, x, k - 1);
      }
      LevelsExtend(e, t, now, k, x);
    }
    assert CountsRight(w.connections, up.Keys, remaining) && (forall y :: y in next <==> Freed(w.connections, level.Keys, up.Keys, y)) by {
      forall y
        ensures CountAt(remaining, y) == Pending(w.connections, y, up.Keys)
        ensures y in next <==> Freed(w.connections, level.Keys, up.Keys, y)
      {
        FreedStep(w.connections, level.Keys, now.Keys, x, y);
      }
    }
    TightStep(w.connections, e, t, k, now, x, queued, next);
  }

  /** Once the queue is exhausted, the freed nodes are exactly the ready ones. */
  lemma FreedIsReady(w: Definition, t: Id, level: map<Id, nat>, now: map<Id, nat>, queue: seq<Id>, y: Id)
    requires y in NodeIds(w) && level.Keys <= now.Keys && t in now
    requires Levels(EdgesOf(w.connections), t, level)
    requires QueueHolds(w, t, level, queue)
    requires forall x :: x in now ==> x in level || x in queue
    requires forall x :: x in queue && x in NodeIds(w) ==> x in now
    ensures Freed(w.connections, level.Keys, now.Keys, y) <==> Ready(w, t, now.Keys, y)
  {
    PendingZero(w.connections, y, level.Keys);
    PendingMonotone(w.connections, y, {}, level.Keys);
    assert y in queue <==> Ready(w, t, level.Keys, y);
  }

  lemma RoundDone(w: Definition, t: Id, k: nat, level: map<Id, nat>, before: map<Id, int>, queue: seq<Id>,
                  now: map<Id, nat>, remaining: map<Id, int>, next: seq<Id>)
    requires Round(w, t, k, level, before, queue)
    requires Within(w, t, k, level, now, remaining, next)
    requires forall x :: x in now ==> x in level || x in queue
    requires forall x :: x in queue && x in NodeIds(w) ==> x in now
    ensures Round(w, t, k + 1, now, remaining, next)
    ensures now == level ==> next == []
  {
    if t !in level {
      PendingMonotone(w.connections, t, {}, level.Keys);
      assert Ready(w, t, level.Keys, t);
    }
    forall y | y in NodeIds(w) ensures y in next <==> Ready(w, t, now.Keys, y) {
      FreedIsReady(w, t, level, now, queue, y);
    }
    if now == level {
      assert next != [] ==> next[0] in next && Freed(w.connections, level.Keys, now.Keys, next[0]);
    }
  }

  /** The stage lists exactly the nodes that joined in this round. */
  ghost predicate StageLists(w: Definition, stage: seq<PlanNode>, k: nat, level: map<Id, nat>, now: map<Id, nat>) {
    && (forall j :: 0 <= j < |stage| ==>
          && stage[j].id in now && stage[j].id !in level
          && stage[j] == PlanNodeFor(w, stage[j].id, k))
    && (forall j, l :: 0 <= j < l < |stage| ==> stage[j].id != stage[l].id)
    && (forall x :: x in now && x !in level ==> ListedIn(stage, x))
  }

  predicate ListedIn(stage: seq<PlanNode>, x: Id) {
    exists j :: 0 <= j < |stage| && stage[j].id == x
  }

  lemma StageListsStep(w: Definition, stage: seq<PlanNode>, k: nat, level: map<Id, nat>, now: map<Id, nat>, x: Id)
    requires StageLists(w, stage, k, level, now) && x !in now && level.Keys <= now.Keys
    ensures StageLists(w, stage + [PlanNodeFor(w, x, k)], k, level, now[x := k])
  {
    var longer := stage + [PlanNodeFor(w, x, k)];
    forall y | y in now[x := k] && y !in level ensures ListedIn(longer, y) {
      if y == x {
        assert longer[|stage|].id == x;
      } else {
        assert ListedIn(stage, y);
        var j :| 0 <= j < |stage| && stage[j].id == y;
        assert longer[j].id == y;
      }
    }
  }

  lemma PrefixMore<T>(s: seq<T>, i: nat)
    requires i < |s|
    ensures s[..i + 1] == s[..i] + [s[i]]
  {
  }

  /** What holds inside a round once the entries `seen` of the queue have been handled. */
  ghost predicate Midway(w: Definition, t: Id, k: nat, level: map<Id, nat>, now: map<Id, nat>, remaining: map<Id, int>,
                         next: seq<Id>, seen: seq<Id>, stage: seq<PlanNode>) {
    && Within(w, t, k, level, now, remaining, next) && StageLists(w, stage, k, level, now)
    && (forall x :: x in now ==> x in level || x in seen)
    && (forall x :: x in seen && x in NodeIds(w) ==> x in now)
  }

  lemma MidwaySkips(w: Definition, t: Id, k: nat, level: map<Id, nat>, now: map<Id, nat>, remaining: map<Id, int>,
                    next: seq<Id>, seen: seq<Id>, stage: seq<PlanNode>, x: Id)
    requires Midway(w, t, k, level, now, remaining, next, seen, stage) && (x in now || x !in NodeIds(w))
    ensures Midway(w, t, k, level, now, remaining, next, seen + [x], stage)
  {
  }

  lemma MidwayTakes(w: Definition, t: Id, k: nat, level: map<Id, nat>, before: map<Id, int>, queue: seq<Id>, now: map<Id, nat>,
                    remaining: map<Id, int>, next: seq<Id>, seen: seq<Id>, stage: seq<PlanNode>, x: Id, r: map<Id, int>, n: seq<Id>)
    requires Round(w, t, k, level, before, queue) && x in queue
    requires Midway(w, t, k, level, now, remaining, next, seen, stage) && x in NodeIds(w) && x !in now
    requires Lowered(remaining, Outgoing(w.connections, x), r) && Queued(remaining, next, Outgoing(w.connections, x), n)
    ensures Midway(w, t, k, level, now[x := k], r, n, seen + [x], stage + [PlanNodeFor(w, x, k)])
  {
    QueuedIsReady(w, t, k, level, before, queue, x);
    StageListsStep(w, stage, k, level, now, x);
    assert forall y :: y in n <==> y in next || ReachesZero(remaining, Outgoing(w.connections, x), y);
    WithinStep(w, EdgesOf(w.connections), t, k, level, now, x, remaining, next, r, n);
    assert x in seen + [x];
  }

  /** One round: every queued node that exists joins stage `k`. */
  method ProcessStage(w: Definition, ghost t: Id, k: nat, outputs: map<Id, seq<Id>>, inputs: map<Id, seq<Id>>,
                      queue: seq<Id>, done: set<Id>, before: map<Id, int>, ghost level: map<Id, nat>)
    returns (stage: seq<PlanNode>, next: seq<Id>, processed: set<Id>, remaining: map<Id, int>, ghost now: map<Id, nat>)
    requires OutputsOf(w.connections, outputs) && InputsOf(w.connections, inputs)
    requires Round(w, t, k, level, before, queue) && done == level.Keys
    ensures Round(w, t, k + 1, now, remaining, next) && processed == now.Keys
    ensures level.Keys <= now.Keys && forall x :: x in now ==> now[x] == if x in level then level[x] else k
    ensures StageLists(w, stage, k, level, now)
    ensures stage == [] ==> now == level && next == []
  {
    stage, next, processed, remaining, now := [], [], done, before, level;
    for i := 0 to |queue|
      invariant processed == now.Keys && Midway(w, t, k, level, now, remaining, next, queue[..i], stage)
    {
      var x := queue[i];
      PrefixMore(queue, i);
      if x !in processed && x in NodeIds(w) {
        var outs := ListAt(outputs, x);
        var r, n := Relax(outs, remaining, next);
        MidwayTakes(w, t, k, level, before, queue, now, remaining, next, queue[..i], stage, x, r, n);
        stage := stage + [PlanNode(x, ListAt(inputs, x), outs, k)];
        processed := processed + {x};
        remaining, next, now := r, n, now[x := k];
      } else {
        MidwaySkips(w, t, k, level, now, remaining, next, queue[..i], stage, x);
      }
    }
    assert queue[..|queue|] == queue;
    RoundDone(w, t, k, level, before, queue, now, remaining, next);
    if stage == [] {
      assert now.Keys == level.Keys;
      assert now == level;
    }
  }

  lemma {:induction false} IdsAtMost(nodes: seq<Node>)
    ensures |Ids(nodes)| <= |nodes|
  {
    if nodes != [] {
      IdsAtMost(nodes[..|nodes| - 1]);
      assert Ids(nodes) == Ids(nodes[..|nodes| - 1]) + {nodes[|nodes| - 1].id};
    }
  }

  lemma {:induction false} IdsDistinct(nodes: seq<Node>)
    requires forall i, j :: 0 <= i < j < |nodes| ==> nodes[i].id != nodes[j].id
    ensures |Ids(nodes)| == |nodes|
  {
    if nodes != [] {
      var front, last := nodes[..|nodes| - 1], nodes[|nodes| - 1];
      IdsDistinct(front);
      assert Ids(nodes) == Ids(front) + {last.id};
      assert last.id !in Ids(front);
    }
  }

  lemma IdsClash(nodes: seq<Node>, i: nat, j: nat)
    requires i < j < |nodes| && nodes[i].id == nodes[j].id
    ensures |Ids(nodes)| < |nodes|
  {
    var rest := nodes[..j] + nodes[j + 1..];
    forall x | x in Ids(nodes) ensures x in Ids(rest) {
      var l :| 0 <= l < |nodes| && nodes[l].id == x;
      var m := if l == j then i else if l < j then l else l - 1;
      assert rest[m].id == x;
    }
    assert Ids(nodes) <= Ids(rest);
    if Ids(nodes) != Ids(rest) { SmallerSet(Ids(nodes), Ids(rest)); }
    IdsAtMost(rest);
  }

  /** When the loop stops, all nodes have a level only if the workflow can be staged. */
  lemma CompleteIsPlannable(w: Definition, t: Id, k: nat, level: map<Id, nat>, remaining: map<Id, int>)
    requires Round(w, t, k, level, remaining, []) && |level.Keys| == |w.nodes|
    ensures Plannable(w, t) && level.Keys == NodeIds(w)
  {
    IdsAtMost(w.nodes);
    if level.Keys != NodeIds(w) {
      SmallerSet(level.Keys, NodeIds(w));
    }
    if i, j :| 0 <= i < j < |w.nodes| && w.nodes[i].id == w.nodes[j].id {
      IdsClash(w.nodes, i, j);
    }
    PendingZero(w.connections, t, {});
    forall n | n in NodeIds(w) ensures n == t <==> IsSource(EdgesOf(w.connections), n) {
      if n != t {
        assert Tight(EdgesOf(w.connections), level, n);
      }
    }
    RankedIsAcyclic(InnerEdges(w), level);
  }

  /** With an empty queue, an unlevelled node that is the trigger or has a predecessor waits for one. */
  lemma Stuck(w: Definition, t: Id, level: map<Id, nat>, x: Id) returns (y: Id)
    requires QueueHolds(w, t, level, []) && x in NodeIds(w) && x !in level
    requires x == t || !IsSource(EdgesOf(w.connections), x)
    ensures (y, x) in EdgesOf(w.connections) && y !in level
  {
    assert !Ready(w, t, level.Keys, x);
    PendingZero(w.connections, x, level.Keys);
    PendingZero(w.connections, x, {});
    y :| (y, x) in EdgesOf(w.connections) && y !in level;
  }

  /** When the loop stops on a workflow that can be staged, all nodes have a level. */
  lemma PlannableIsComplete(w: Definition, t: Id, level: map<Id, nat>)
    requires QueueHolds(w, t, level, []) && level.Keys <= NodeIds(w) && Plannable(w, t)
    ensures |level.Keys| == |w.nodes|
  {
    IdsDistinct(w.nodes);
    var rest := NodeIds(w) - level.Keys;
    if u :| u in rest {
      var m := MinimalMember(InnerEdges(w), rest, u);
      assert m != t ==> !IsSource(EdgesOf(w.connections), m);
      var y := Stuck(w, t, level, m);
      assert false;
    }
    assert rest == {};
    forall x | x in NodeIds(w) ensures x in level.Keys {
      assert x !in rest;
    }
    assert level.Keys == NodeIds(w);
  }

  /** Appending a finished stage keeps the layout. */
  lemma LaysStep(w: Definition, stages: seq<seq<PlanNode>>, stage: seq<PlanNode>, level: map<Id, nat>, now: map<Id, nat>)
    requires Lays(w, stages, level) && StageLists(w, stage, |stages|, level, now) && |stage| > 0
    requires level.Keys <= now.Keys && forall x :: x in now ==> now[x] == if x in level then level[x] else |stages|
    ensures Lays(w, stages + [stage], now)
  {
    var longer := stages + [stage];
    forall x | x in now ensures now[x] < |longer| && ListedIn(longer[now[x]], x) {
      if x in level {
        assert ListedIn(stages[level[x]], x);
      } else {
        assert ListedIn(stage, x);
      }
    }
  }

  /** An empty stage leaves nothing to do, so the round count does not matter. */
  lemma RoundStays(w: Definition, t: Id, k: nat, level: map<Id, nat>, remaining: map<Id, int>)
    requires Round(w, t, k + 1, level, remaining, []) && forall x :: x in level ==> level[x] < k
    ensures Round(w, t, k, level, remaining, [])
  {
  }

  /** The main loop: rounds until the queue is empty. */
  method RunRounds(w: Definition, t: Id, outputs: map<Id, seq<Id>>, inputs: map<Id, seq<Id>>, inDegree: map<Id, int>)
    returns (stages: seq<seq<PlanNode>>, processed: set<Id>, remaining: map<Id, int>, ghost level: map<Id, nat>)
    requires forall x :: ListAt(outputs, x) == Outgoing(w.connections, x)
    requires forall x :: ListAt(inputs, x) == Incoming(w.connections, x)
    requires Round(w, t, 0, map[], inDegree, [t])
    ensures processed == level.Keys && Round(w, t, |stages|, level, remaining, [])
    ensures Lays(w, stages, level)
  {
    stages, processed, remaining, level := [], {}, inDegree, map[];
    var queue := [t];
    while queue != []
      invariant processed == level.Keys
      invariant Round(w, t, |stages|, level, remaining, queue)
      invariant Lays(w, stages, level)
      decreases NodeIds(w) - processed, |queue|
    {
      ghost var was := level;
      var stage;
      stage, queue, processed, remaining, level := ProcessStage(w, t, |stages|, outputs, inputs, queue, processed, remaining, level);
      if |stage| > 0 {
        LaysStep(w, stages, stage, was, level);
        assert stage[0].id in level && stage[0].id !in was;
        stages := stages + [stage];
      } else {
        RoundStays(w, t, |stages|, level, remaining);
      }
    }
  }

  /** buildExecutionPlan: succeeds on exactly the workflows that can be staged from the chosen trigger. */
  method BuildExecutionPlan(w: Definition, isTrigger: string -> bool) returns (r: PlanResult, ghost level: map<Id, nat>)
    ensures r.NoTrigger? <==> PlanTrigger(w, isTrigger) == NO_ID
    ensures r.Planned? <==> PlanTrigger(w, isTrigger) != NO_ID && Plannable(w, PlanTrigger(w, isTrigger))
    ensures r.Planned? ==> r.plan.triggerId == PlanTrigger(w, isTrigger) && ValidPlan(w, r.plan, level)
  {
    var outputs, inputs, inDegree := BuildAdjacency(w);
    var t := FindTrigger(w, inDegree, isTrigger);
    if t == NO_ID {
      return NoTrigger, map[];
    }
    FirstRound(w, isTrigger, inDegree);
    var stages, processed, remaining;
    stages, processed, remaining, level := RunRounds(w, t, outputs, inputs, inDegree);
    if |processed| != |w.nodes| {
      if Plannable(w, t) { PlannableIsComplete(w, t, level); }
      return CyclesOrDisconnected, level;
    }
    CompleteIsPlannable(w, t, |stages|, level, remaining);
    return Planned(Plan(stages, t, |w.nodes|)), level;
  }

  lemma FirstRound(w: Definition, isTrigger: string -> bool, inDegree: map<Id, int>)
    requires forall x :: CountAt(inDegree, x) == InDegree(w.connections, x)
    requires PlanTrigger(w, isTrigger) != NO_ID
    ensures Round(w, PlanTrigger(w, isTrigger), 0, map[], inDegree, [PlanTrigger(w, isTrigger)])
  {
    var none: map<Id, nat> := map[];
    assert none.Keys == {};
    FirstIdIsMember(w.nodes, (n: Node) => InDegree(w.connections, n.id) == 0 && isTrigger(n.nodeType));
  }
}
