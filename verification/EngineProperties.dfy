/** What a depth-first walk computes: it runs a node once per path leading to it, and what it
    leaves behind solves the workflow's equations although joins ran on incomplete inputs first. */
module EngineProperties {
  import opened Reachability
  import opened Workflow
  import opened Runtime
  import opened RecursiveEngine

  ghost predicate NeverCancelled(cancelled: nat -> bool) {
    forall k :: !cancelled(k)
  }

  // ---- Runs count paths; parallel connections count separately ----

  /** `p` lists the indices of consecutive connections leading from `x` to `n`. */
  predicate ConnPath(conns: seq<Connection>, x: Id, p: seq<nat>, n: Id)
    decreases |p|
  {
    if p == [] then x == n
    else p[0] < |conns| && conns[p[0]].source == x && ConnPath(conns, conns[p[0]].target, p[1..], n)
  }

  /** The connection paths from `x` to `n`. */
  ghost function PathsTo(conns: seq<Connection>, x: Id, n: Id): set<seq<nat>>
    requires Acyclic(EdgesOf(conns))
    decreases |Below(EdgesOf(conns), x)|, 1, 0
  {
    (if x == n then {[]} else {}) + PathsVia(conns, x, n, |conns|)
  }

  /** Those whose first connection has an index below `k`. */
  ghost function PathsVia(conns: seq<Connection>, x: Id, n: Id, k: nat): set<seq<nat>>
    requires Acyclic(EdgesOf(conns)) && k <= |conns|
    decreases |Below(EdgesOf(conns), x)|, 0, k
  {
    if k == 0 then {}
    else PathsVia(conns, x, n, k - 1) + PathsStarting(conns, x, n, k - 1)
  }

  ghost function PathsStarting(conns: seq<Connection>, x: Id, n: Id, i: nat): set<seq<nat>>
    requires Acyclic(EdgesOf(conns)) && i < |conns|
    decreases |Below(EdgesOf(conns), x)|, 0, i
  {
    if conns[i].source == x then
      assert (x, conns[i].target) in EdgesOf(conns);
      BelowShrinks(EdgesOf(conns), x, conns[i].target);
      set p | p in PathsTo(conns, conns[i].target, n) :: [i] + p
    else {}
  }

  lemma {:induction false} PathsToMembers(conns: seq<Connection>, x: Id, n: Id, p: seq<nat>)
    requires Acyclic(EdgesOf(conns))
    ensures p in PathsTo(conns, x, n) <==> ConnPath(conns, x, p, n)
    decreases |p|
  {
    PathsViaMembers(conns, x, n, |conns|, p);
    if p != [] && p[0] < |conns| && conns[p[0]].source == x {
      PathsToMembers(conns, conns[p[0]].target, n, p[1..]);
      assert p == [p[0]] + p[1..];
    }
  }

  lemma {:induction false} PathsViaMembers(conns: seq<Connection>, x: Id, n: Id, k: nat, p: seq<nat>)
    requires Acyclic(EdgesOf(conns)) && k <= |conns|
    ensures p in PathsVia(conns, x, n, k) <==> |p| > 0 && p[0] < k && p in PathsStarting(conns, x, n, p[0])
    decreases k
  {
    if k > 0 {
      PathsViaMembers(conns, x, n, k - 1, p);
    }
  }

  ghost function SumPaths(conns: seq<Connection>, targets: seq<Id>, n: Id): nat
    requires Acyclic(EdgesOf(conns))
  {
    if targets == [] then 0 else SumPaths(conns, targets[..|targets| - 1], n) + |PathsTo(conns, targets[|targets| - 1], n)|
  }

  lemma SumPathsSnoc(conns: seq<Connection>, targets: seq<Id>, y: Id, n: Id)
    requires Acyclic(EdgesOf(conns))
    ensures SumPaths(conns, targets + [y], n) == SumPaths(conns, targets, n) + |PathsTo(conns, y, n)|
  {
    assert (targets + [y])[..|targets|] == targets;
  }

  lemma {:induction false} SumPathsHead(conns: seq<Connection>, targets: seq<Id>, n: Id)
    requires Acyclic(EdgesOf(conns)) && targets != []
    ensures SumPaths(conns, targets, n) == |PathsTo(conns, targets[0], n)| + SumPaths(conns, targets[1..], n)
  {
    if |targets| > 1 {
      SumPathsHead(conns, targets[..|targets| - 1], n);
      assert targets[..|targets| - 1][1..] == targets[1..][..|targets| - 2];
    }
  }

  lemma {:induction false} Prefixed(s: set<seq<nat>>, t: set<seq<nat>>, i: nat)
    requires t == set p | p in s :: [i] + p
    ensures |t| == |s|
  {
    if q :| q in s {
      var s', t' := s - {q}, set p | p in s - {q} :: [i] + p;
      Prefixed(s', t', i);
      forall p | p in s' ensures [i] + p != [i] + q {
        assert ([i] + p)[1..] == p && ([i] + q)[1..] == q;
      }
      assert [i] + q !in t';
      assert t == t' + {[i] + q};
    }
  }

  /** The paths through connections are counted target by target. */
  lemma ViaIsSum(conns: seq<Connection>, x: Id, n: Id)
    requires Acyclic(EdgesOf(conns))
    ensures |PathsVia(conns, x, n, |conns|)| == SumPaths(conns, Outgoing(conns, x), n)
  {
    assert Outgoing(conns[..0], x) == [];
    for i := 0 to |conns|
      invariant |PathsVia(conns, x, n, i)| == SumPaths(conns, Outgoing(conns[..i], x), n)
    {
      StartingSize(conns, x, n, i);
      SumPathsVia(conns, x, n, i);
    }
    assert conns[..|conns|] == conns;
  }

  lemma OutgoingVia(conns: seq<Connection>, x: Id, i: nat)
    requires i < |conns|
    ensures Outgoing(conns[..i + 1], x) == Outgoing(conns[..i], x) + if conns[i].source == x then [conns[i].target] else []
  {
    assert conns[..i + 1][..i] == conns[..i];
  }

  lemma SumPathsVia(conns: seq<Connection>, x: Id, n: Id, i: nat)
    requires Acyclic(EdgesOf(conns)) && i < |conns|
    ensures SumPaths(conns, Outgoing(conns[..i + 1], x), n) ==
            SumPaths(conns, Outgoing(conns[..i], x), n) + if conns[i].source == x then |PathsTo(conns, conns[i].target, n)| else 0
  {
    OutgoingVia(conns, x, i);
    if conns[i].source == x {
      SumPathsSnoc(conns, Outgoing(conns[..i], x), conns[i].target, n);
    } else {
      assert Outgoing(conns[..i + 1], x) == Outgoing(conns[..i], x);
    }
  }

  lemma StartingApart(conns: seq<Connection>, x: Id, n: Id, i: nat)
    requires Acyclic(EdgesOf(conns)) && i < |conns|
    ensures PathsVia(conns, x, n, i) !! PathsStarting(conns, x, n, i)
  {
    forall p | p in PathsVia(conns, x, n, i) ensures p !in PathsStarting(conns, x, n, i) {
      PathsViaMembers(conns, x, n, i, p);
    }
  }

  /** One more connection adds the paths from its target. */
  lemma StartingSize(conns: seq<Connection>, x: Id, n: Id, i: nat)
    requires Acyclic(EdgesOf(conns)) && i < |conns|
    ensures |PathsVia(conns, x, n, i + 1)| ==
            |PathsVia(conns, x, n, i)| + if conns[i].source == x then |PathsTo(conns, conns[i].target, n)| else 0
  {
    var before, added := PathsVia(conns, x, n, i), PathsStarting(conns, x, n, i);
    StartingApart(conns, x, n, i);
    assert PathsVia(conns, x, n, i + 1) == before + added;
    if conns[i].source == x {
      Prefixed(PathsTo(conns, conns[i].target, n), added, i);
    }
  }

  lemma PathsToSize(conns: seq<Connection>, x: Id, n: Id)
    requires Acyclic(EdgesOf(conns))
    ensures |PathsTo(conns, x, n)| == (if x == n then 1 else 0) + SumPaths(conns, Outgoing(conns, x), n)
  {
    ViaIsSum(conns, x, n);
    PathsViaMembers(conns, x, n, |conns|, []);
    assert {[]} !! PathsVia(conns, x, n, |conns|);
  }

  /** A calm, closed, uncancelled walk never stops early, and visits `n` once more for every
      connection path from where it starts to `n`. */
  lemma {:induction false} WalkCountsPaths(w: Definition, f: Behavior, cancelled: nat -> bool, s: EngineState, x: Id, n: Id)
    requires Acyclic(EdgesOf(w.connections)) && Closed(w) && Calm(f) && NeverCancelled(cancelled) && x in NodeIds(w)
    ensures Walk(w, f, cancelled, s, x).error == None
    ensures multiset(Visits(Walk(w, f, cancelled, s, x).state.log))[n] == multiset(Visits(s.log))[n] + |PathsTo(w.connections, x, n)|
    decreases |Below(EdgesOf(w.connections), x)|, 1, 0
  {
    assert CalmAt(f, x, GatherPorts(s.outputs, w.connections, x));
    var v := VisitNode(w, f, s, x);
    assert v.Continue? && v.next == Outgoing(w.connections, x);
    VisitsMore(s.log, v.state.log[|s.log|]);
    NextAreSuccessors(w.connections, x, v.state.outputs[x]);
    WalkAllCountsPaths(w, f, cancelled, v.state, x, v.next, n);
    PathsToSize(w.connections, x, n);
  }

  lemma {:induction false} WalkAllCountsPaths(w: Definition, f: Behavior, cancelled: nat -> bool, s: EngineState, x: Id, targets: seq<Id>, n: Id)
    requires Acyclic(EdgesOf(w.connections)) && Closed(w) && Calm(f) && NeverCancelled(cancelled)
    requires Successors(w.connections, x, targets)
    ensures WalkAll(w, f, cancelled, s, x, targets).error == None
    ensures multiset(Visits(WalkAll(w, f, cancelled, s, x, targets).state.log))[n] == multiset(Visits(s.log))[n] + SumPaths(w.connections, targets, n)
    decreases |Below(EdgesOf(w.connections), x)|, 0, |targets|
  {
    if targets != [] {
      var y := targets[0];
      TargetIsNode(w, x, y);
      BelowShrinks(EdgesOf(w.connections), x, y);
      var s' := s.(polls := s.polls + 1);
      WalkCountsPaths(w, f, cancelled, s', y, n);
      var mid := Walk(w, f, cancelled, s', y).state;
      assert WalkAll(w, f, cancelled, s, x, targets) == WalkAll(w, f, cancelled, mid, x, targets[1..]);
      WalkAllCountsPaths(w, f, cancelled, mid, x, targets[1..], n);
      SumPathsHead(w.connections, targets, n);
    }
  }

  lemma TargetIsNode(w: Definition, x: Id, y: Id)
    requires Closed(w) && (x, y) in EdgesOf(w.connections)
    ensures x in NodeIds(w) && y in NodeIds(w)
  {
    var c :| c in w.connections && (c.source, c.target) == (x, y);
  }

  // ---- What the walk leaves behind ----

  /** `n` holds the output it computes from the outputs its sources hold now. */
  ghost predicate Settled(w: Definition, f: Behavior, outputs: map<Id, Data>, n: Id) {
    n in outputs && outputs[n] == Computed(f, n, GatherPorts(outputs, w.connections, n))
  }

  ghost predicate SameAt(a: map<Id, Data>, b: map<Id, Data>, n: Id) {
    (n in a <==> n in b) && (n in a ==> a[n] == b[n])
  }

  ghost predicate ReachAny(e: Edges, targets: seq<Id>, n: Id) {
    exists i :: 0 <= i < |targets| && Reach(e, targets[i], n)
  }

  lemma {:induction false} GatherPortsFrame(a: map<Id, Data>, b: map<Id, Data>, conns: seq<Connection>, n: Id)
    requires forall s :: (s, n) in EdgesOf(conns) ==> SameAt(a, b, s)
    ensures GatherPorts(a, conns, n) == GatherPorts(b, conns, n)
  {
    if conns != [] {
      var front, last := conns[..|conns| - 1], conns[|conns| - 1];
      assert conns == front + [last];
      assert EdgesOf(conns) == EdgesOf(front) + {(last.source, last.target)};
      GatherPortsFrame(a, b, front, n);
      if last.target == n {
        assert SameAt(a, b, last.source);
      }
    }
  }

  /** If nothing on the way to `n` changed, `n` stays settled. */
  lemma SettledFrame(w: Definition, f: Behavior, a: map<Id, Data>, b: map<Id, Data>, n: Id)
    requires Settled(w, f, a, n) && SameAt(a, b, n)
    requires forall s :: (s, n) in EdgesOf(w.connections) ==> SameAt(a, b, s)
    ensures Settled(w, f, b, n)
  {
    GatherPortsFrame(a, b, w.connections, n);
  }

  /** After a walk from `x`, exactly what `x` reaches may have changed, and all of it is settled. */
  lemma {:induction false} WalkSettles(w: Definition, f: Behavior, cancelled: nat -> bool, s: EngineState, x: Id, n: Id)
    requires Acyclic(EdgesOf(w.connections)) && Closed(w) && Calm(f) && NeverCancelled(cancelled) && x in NodeIds(w)
    ensures var after := Walk(w, f, cancelled, s, x).state.outputs;
            if Reach(EdgesOf(w.connections), x, n) then Settled(w, f, after, n) else SameAt(s.outputs, after, n)
    decreases |Below(EdgesOf(w.connections), x)|, 1, 0
  {
    var e := EdgesOf(w.connections);
    assert CalmAt(f, x, GatherPorts(s.outputs, w.connections, x));
    var v := VisitNode(w, f, s, x);
    assert v.Continue? && v.next == Outgoing(w.connections, x);
    NextAreSuccessors(w.connections, x, v.state.outputs[x]);
    var after := WalkAll(w, f, cancelled, v.state, x, v.next).state.outputs;
    assert after == Walk(w, f, cancelled, s, x).state.outputs;
    if n == x {
      ReachSelf(e, x);
      forall y | y == x || (y, x) in e ensures SameAt(v.state.outputs, after, y) {
        NothingBeforeIsReached(w, x, y);
        WalkAllSettles(w, f, cancelled, v.state, x, v.next, y);
      }
      forall y | (y, x) in e ensures y != x {
        AcyclicByEdges(e);
        ReachSelf(e, x);
      }
      GatherPortsFrame(s.outputs, v.state.outputs, w.connections, x);
      SettledFrame(w, f, v.state.outputs, after, x);
    } else {
      ReachThroughTargets(w, x, n);
      WalkAllSettles(w, f, cancelled, v.state, x, v.next, n);
    }
  }

  /** In an acyclic graph no successor of `x` reaches `x` or a source of `x`. */
  lemma NothingBeforeIsReached(w: Definition, x: Id, y: Id)
    requires Acyclic(EdgesOf(w.connections)) && (y == x || (y, x) in EdgesOf(w.connections))
    ensures !ReachAny(EdgesOf(w.connections), Outgoing(w.connections, x), y)
  {
    var e, outs := EdgesOf(w.connections), Outgoing(w.connections, x);
    if ReachAny(e, outs, y) {
      var i :| 0 <= i < |outs| && Reach(e, outs[i], y);
      OutgoingMembers(w.connections, x, outs[i]);
      if y != x { ReachSnoc(e, outs[i], y, x); }
      AcyclicByEdges(e);
    }
  }

  lemma ReachThroughTargets(w: Definition, x: Id, n: Id)
    requires n != x
    ensures Reach(EdgesOf(w.connections), x, n) <==> ReachAny(EdgesOf(w.connections), Outgoing(w.connections, x), n)
  {
    var e, outs := EdgesOf(w.connections), Outgoing(w.connections, x);
    if Reach(e, x, n) {
      var y := FirstStep(e, x, n);
      OutgoingMembers(w.connections, x, y);
      var i :| 0 <= i < |outs| && outs[i] == y;
    }
    if ReachAny(e, outs, n) {
      var i :| 0 <= i < |outs| && Reach(e, outs[i], n);
      OutgoingMembers(w.connections, x, outs[i]);
      ReachCons(e, x, outs[i], n);
    }
  }

  /** What a walk to the first target settled, the walks to the rest leave settled. */
  lemma StaysSettled(w: Definition, f: Behavior, rest: seq<Id>, n: Id, mid: map<Id, Data>, after: map<Id, Data>)
    requires Settled(w, f, mid, n) && !ReachAny(EdgesOf(w.connections), rest, n)
    requires forall p {:trigger ReachAny(EdgesOf(w.connections), rest, p)} ::
               !ReachAny(EdgesOf(w.connections), rest, p) ==> SameAt(mid, after, p)
    ensures Settled(w, f, after, n)
  {
    var e := EdgesOf(w.connections);
    forall p | (p, n) in e ensures SameAt(mid, after, p) {
      if ReachAny(e, rest, p) {
        var i :| 0 <= i < |rest| && Reach(e, rest[i], p);
        ReachSnoc(e, rest[i], p, n);
      }
    }
    SettledFrame(w, f, mid, after, n);
  }

  lemma MeetsNoObstacle(w: Definition, f: Behavior, cancelled: nat -> bool, s: EngineState, x: Id)
    requires Acyclic(EdgesOf(w.connections)) && Closed(w) && Calm(f) && NeverCancelled(cancelled) && x in NodeIds(w)
    ensures Walk(w, f, cancelled, s, x).error == None
  {
    WalkCountsPaths(w, f, cancelled, s, x, x);
  }

  lemma WalkAllHead(w: Definition, f: Behavior, cancelled: nat -> bool, s: EngineState, x: Id, targets: seq<Id>) returns (mid: EngineState)
    requires Acyclic(EdgesOf(w.connections)) && Closed(w) && Calm(f) && NeverCancelled(cancelled)
    requires Successors(w.connections, x, targets) && |targets| > 0
    ensures mid == Walk(w, f, cancelled, s.(polls := s.polls + 1), targets[0]).state
    ensures WalkAll(w, f, cancelled, s, x, targets) == WalkAll(w, f, cancelled, mid, x, targets[1..])
  {
    TargetIsNode(w, x, targets[0]);
    BelowShrinks(EdgesOf(w.connections), x, targets[0]);
    var s' := s.(polls := s.polls + 1);
    MeetsNoObstacle(w, f, cancelled, s', targets[0]);
    mid := Walk(w, f, cancelled, s', targets[0]).state;
  }

  lemma {:induction false} WalkAllSettles(w: Definition, f: Behavior, cancelled: nat -> bool, s: EngineState, x: Id, targets: seq<Id>, n: Id)
    requires Acyclic(EdgesOf(w.connections)) && Closed(w) && Calm(f) && NeverCancelled(cancelled)
    requires Successors(w.connections, x, targets)
    ensures var after := WalkAll(w, f, cancelled, s, x, targets).state.outputs;
            if ReachAny(EdgesOf(w.connections), targets, n) then Settled(w, f, after, n) else SameAt(s.outputs, after, n)
    decreases |Below(EdgesOf(w.connections), x)|, 0, |targets|
  {
    var e := EdgesOf(w.connections);
    if targets != [] {
      var y, rest := targets[0], targets[1..];
      TargetIsNode(w, x, y);
      BelowShrinks(e, x, y);
      var mid := WalkAllHead(w, f, cancelled, s, x, targets);
      WalkSettles(w, f, cancelled, s.(polls := s.polls + 1), y, n);
      WalkAllSettles(w, f, cancelled, mid, x, rest, n);
      ReachAnyHead(e, targets, n);
      if Reach(e, y, n) && !ReachAny(e, rest, n) {
        var after := WalkAll(w, f, cancelled, mid, x, rest).state.outputs;
        forall p | !ReachAny(e, rest, p) ensures SameAt(mid.outputs, after, p) {
          WalkAllSettles(w, f, cancelled, mid, x, rest, p);
        }
        StaysSettled(w, f, rest, n, mid.outputs, after);
      }
    }
  }

  lemma ReachAnyHead(e: Edges, targets: seq<Id>, n: Id)
    requires targets != []
    ensures ReachAny(e, targets, n) <==> Reach(e, targets[0], n) || ReachAny(e, targets[1..], n)
  {
    var rest := targets[1..];
    if ReachAny(e, rest, n) {
      var i :| 0 <= i < |rest| && Reach(e, rest[i], n);
      assert Reach(e, targets[i + 1], n);
    }
    if i :| 0 <= i < |targets| && Reach(e, targets[i], n) {
      assert i > 0 ==> Reach(e, rest[i - 1], n);
    }
  }

  // ---- When a walk ends ----

  /** Following every connection from `x` nests at most `depth` nodes. */
  predicate Shallow(conns: seq<Connection>, x: Id, depth: nat)
    decreases depth
  {
    depth > 0 && forall y :: y in Outgoing(conns, x) ==> Shallow(conns, y, depth - 1)
  }

  /** How deep an undisturbed walk nests is a matter of the graph alone. */
  lemma {:induction false} WalkNests(w: Definition, f: Behavior, cancelled: nat -> bool, s: EngineState, x: Id, depth: nat)
    requires Closed(w) && Calm(f) && NeverCancelled(cancelled) && x in NodeIds(w)
    ensures var b := BoundedWalk(w, f, cancelled, s, x, depth);
            (b.Some? <==> Shallow(w.connections, x, depth)) && (b.Some? ==> b.value.error == None)
    decreases depth, 0, 0
  {
    if depth > 0 {
      assert CalmAt(f, x, GatherPorts(s.outputs, w.connections, x));
      var v := VisitNode(w, f, s, x);
      assert v.Continue? && v.next == Outgoing(w.connections, x);
      forall y | y in v.next ensures y in NodeIds(w) {
        OutgoingMembers(w.connections, x, y);
        TargetIsNode(w, x, y);
      }
      WalkAllNests(w, f, cancelled, v.state, v.next, depth - 1);
    }
  }

  lemma {:induction false} WalkAllNests(w: Definition, f: Behavior, cancelled: nat -> bool, s: EngineState, targets: seq<Id>, depth: nat)
    requires Closed(w) && Calm(f) && NeverCancelled(cancelled) && forall y :: y in targets ==> y in NodeIds(w)
    ensures var b := BoundedWalkAll(w, f, cancelled, s, targets, depth);
            (b.Some? <==> forall y :: y in targets ==> Shallow(w.connections, y, depth)) && (b.Some? ==> b.value.error == None)
    decreases depth, 1, |targets|
  {
    if targets != [] {
      var s' := s.(polls := s.polls + 1);
      WalkNests(w, f, cancelled, s', targets[0], depth);
      var first := BoundedWalk(w, f, cancelled, s', targets[0], depth);
      assert targets == [targets[0]] + targets[1..];
      if first.Some? {
        WalkAllNests(w, f, cancelled, first.value.state, targets[1..], depth);
      }
    }
  }

  lemma {:induction false} ShallowAlong(conns: seq<Connection>, p: seq<Id>, depth: nat)
    requires IsPath(EdgesOf(conns), p) && Shallow(conns, p[0], depth)
    ensures depth >= |p| && Shallow(conns, p[|p| - 1], depth + 1 - |p|)
    decreases |p|
  {
    if |p| > 1 {
      assert (p[0], p[1]) in EdgesOf(conns);
      OutgoingMembers(conns, p[0], p[1]);
      ShallowAlong(conns, p[1..], depth - 1);
    }
  }

  /** No depth is enough on a cycle. */
  lemma {:induction false} CycleNotShallow(conns: seq<Connection>, a: Id, p: seq<Id>, depth: nat)
    requires PathBetween(EdgesOf(conns), a, a, p) && |p| > 1
    ensures !Shallow(conns, a, depth)
    decreases depth
  {
    if Shallow(conns, a, depth) {
      ShallowAlong(conns, p, depth);
      CycleNotShallow(conns, a, p, depth + 1 - |p|);
    }
  }

  lemma ShallowHasNoCycle(conns: seq<Connection>, x: Id, depth: nat)
    requires Shallow(conns, x, depth)
    ensures NoCycleFrom(EdgesOf(conns), x)
  {
    var e := EdgesOf(conns);
    forall a, b | Reach(e, x, a) && (a, b) in e ensures !Reach(e, b, a) {
      if Reach(e, b, a) {
        var p :| PathBetween(e, x, a, p);
        var q :| PathBetween(e, b, a, q);
        ShallowAlong(conns, p, depth);
        assert PathBetween(e, a, a, [a] + q);
        CycleNotShallow(conns, a, [a] + q, depth + 1 - |p|);
      }
    }
  }

  lemma {:induction false} NoCycleIsShallow(conns: seq<Connection>, x: Id, depth: nat)
    requires NoCycleFrom(EdgesOf(conns), x) && depth >= |Below(EdgesOf(conns), x)|
    ensures Shallow(conns, x, depth)
    decreases depth
  {
    var e := EdgesOf(conns);
    ReachSelf(e, x);
    assert x in Below(e, x);
    forall y | y in Outgoing(conns, x) ensures Shallow(conns, y, depth - 1) {
      OutgoingMembers(conns, x, y);
      NoCycleOnward(e, x, y);
      BelowShrinksAt(e, x, y);
      NoCycleIsShallow(conns, y, depth - 1);
    }
  }

  /** An undisturbed walk ends exactly when no cycle can be reached from where it starts. */
  lemma EndsExactly(w: Definition, f: Behavior, cancelled: nat -> bool, s: EngineState, x: Id)
    requires Closed(w) && Calm(f) && NeverCancelled(cancelled) && x in NodeIds(w)
    ensures Ends(w, f, cancelled, s, x) <==> NoCycleFrom(EdgesOf(w.connections), x)
  {
    if Ends(w, f, cancelled, s, x) {
      var depth :| BoundedWalk(w, f, cancelled, s, x, depth).Some?;
      WalkNests(w, f, cancelled, s, x, depth);
      ShallowHasNoCycle(w.connections, x, depth);
    }
    if NoCycleFrom(EdgesOf(w.connections), x) {
      var depth := |Below(EdgesOf(w.connections), x)|;
      NoCycleIsShallow(w.connections, x, depth);
      WalkNests(w, f, cancelled, s, x, depth);
    }
  }
}
