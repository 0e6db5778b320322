/** What the log of a recursive walk says, for every graph and every node behaviour, branching, errors
    and cancellation included: why each node ran, on what input, and why the walk ended. */
module WalkHistory {
  import opened Reachability
  import opened Workflow
  import opened Runtime
  import opened RecursiveEngine

  /** The walk goes on after this outcome: no breakdown, and no attached error in "stop" mode. */
  predicate GoesOn(w: Definition, o: Outcome) {
    o.Returned? && (o.error.Some? ==> w.errorHandling != "stop")
  }

  predicate AllGoOn(w: Definition, log: seq<Ran>) {
    forall k :: 0 <= k < |log| ==> GoesOn(w, log[k].outcome)
  }

  function DataOf(o: Outcome): Data {
    if o.Returned? && o.data.Some? then o.data.value else map[]
  }

  /** Execution `r` sends the walk over connection `i` to `y`: the connection leaves its node, through the
      port its data names if it names one. */
  predicate Leads(w: Definition, r: Ran, i: int, y: Id) {
    && 0 <= i < |w.connections| && GoesOn(w, r.outcome)
    && w.connections[i].source == r.id && w.connections[i].target == y
    && var data := DataOf(r.outcome);
       "_output" in data && data["_output"].Text? ==> w.connections[i].sourcePort == data["_output"].text
  }

  ghost predicate Sent(w: Definition, log: seq<Ran>, y: Id) {
    exists j, i :: 0 <= j < |log| && Leads(w, log[j], i, y)
  }

  /** The outputs held once the executions of `log` are over. */
  function Replay(w: Definition, start: map<Id, Data>, log: seq<Ran>): map<Id, Data> {
    if log == [] then start
    else
      var front, last := log[..|log| - 1], log[|log| - 1];
      if GoesOn(w, last.outcome) then Replay(w, start, front)[last.id := DataOf(last.outcome)] else Replay(w, start, front)
  }

  predicate Stores(w: Definition, log: seq<Ran>, n: Id, k: int) {
    0 <= k < |log| && log[k].id == n && GoesOn(w, log[k].outcome)
  }

  /** A node's output is what its last completed execution returned, or what there was at the start. */
  lemma {:induction false} ReplayHolds(w: Definition, start: map<Id, Data>, log: seq<Ran>, n: Id)
    ensures (forall k :: !Stores(w, log, n, k)) ==>
              var out := Replay(w, start, log); (n in out <==> n in start) && (n in out ==> out[n] == start[n])
    ensures (exists k :: Stores(w, log, n, k)) ==>
              exists k :: Stores(w, log, n, k) && (forall j :: k < j ==> !Stores(w, log, n, j))
                          && n in Replay(w, start, log) && Replay(w, start, log)[n] == DataOf(log[k].outcome)
  {
    if log != [] {
      var front, m := log[..|log| - 1], |log| - 1;
      if Stores(w, log, n, m) {
        assert forall j :: m < j ==> !Stores(w, log, n, j);
      } else {
        ReplayHolds(w, start, front, n);
        forall k ensures Stores(w, log, n, k) <==> Stores(w, front, n, k) {
          assert 0 <= k < m ==> front[k] == log[k];
        }
        assert Replay(w, start, log).Keys - {log[m].id} == Replay(w, start, front).Keys - {log[m].id};
      }
    }
  }

  // ---- Why each node ran ----

  /** Execution `k`: a node of the workflow, run on the merge of the outputs held by then, and reached
      from the start or over a connection that an earlier execution selected. */
  ghost predicate Explained(w: Definition, f: Behavior, start: map<Id, Data>, first: Id, log: seq<Ran>, k: nat)
    requires k < |log|
  {
    && log[k].id in NodeIds(w)
    && log[k].input == GatherPorts(Replay(w, start, log[..k]), w.connections, log[k].id)
    && log[k].outcome == f(log[k].id, log[k].input)
    && (if k == 0 then log[k].id == first else Sent(w, log[..k], log[k].id))
    && (k < |log| - 1 ==> GoesOn(w, log[k].outcome))
  }

  ghost predicate History(w: Definition, f: Behavior, start: map<Id, Data>, first: Id, log: seq<Ran>) {
    forall k :: 0 <= k < |log| ==> Explained(w, f, start, first, log, k)
  }

  /** A state in the middle of a walk that has met no obstacle, and about to go to `targets`. */
  ghost predicate Underway(w: Definition, f: Behavior, start: map<Id, Data>, first: Id, s: EngineState, targets: seq<Id>) {
    && History(w, f, start, first, s.log) && AllGoOn(w, s.log) && s.outputs == Replay(w, start, s.log)
    && forall y :: y in targets ==> if s.log == [] then y == first else Sent(w, s.log, y)
  }

  lemma SentMore(w: Definition, log: seq<Ran>, more: seq<Ran>, y: Id)
    requires Sent(w, log, y) && log <= more
    ensures Sent(w, more, y)
  {
    var j, i :| 0 <= j < |log| && Leads(w, log[j], i, y);
    assert more[j] == log[j];
  }

  /** One more execution. */
  lemma HistoryMore(w: Definition, f: Behavior, start: map<Id, Data>, first: Id, s: EngineState, x: Id, input: Data)
    requires Underway(w, f, start, first, s, [x]) && x in NodeIds(w) && input == GatherPorts(s.outputs, w.connections, x)
    ensures History(w, f, start, first, s.log + [Ran(x, input, f(x, input))])
  {
    var log := s.log + [Ran(x, input, f(x, input))];
    forall k | 0 <= k < |log| ensures Explained(w, f, start, first, log, k) {
      if k < |s.log| {
        assert Explained(w, f, start, first, s.log, k) && log[..k] == s.log[..k];
      } else {
        assert log[..k] == s.log;
        assert x in [x];
      }
    }
  }

  lemma NextSent(w: Definition, log: seq<Ran>, y: Id)
    requires |log| > 0 && GoesOn(w, log[|log| - 1].outcome)
    requires y in NextNodes(w.connections, log[|log| - 1].id, DataOf(log[|log| - 1].outcome))
    ensures Sent(w, log, y)
  {
    var r := log[|log| - 1];
    var next := NextNodes(w.connections, r.id, DataOf(r.outcome));
    var at := NextListed(w.connections, r.id, DataOf(r.outcome));
    var k :| 0 <= k < |next| && next[k] == y;
    assert Leads(w, log[|log| - 1], at[k], y);
  }

  lemma VisitUnderway(w: Definition, f: Behavior, start: map<Id, Data>, first: Id, s: EngineState, x: Id)
    requires Underway(w, f, start, first, s, [x]) && VisitNode(w, f, s, x).Continue?
    ensures var v := VisitNode(w, f, s, x); Underway(w, f, start, first, v.state, v.next) && s.log < v.state.log
  {
    var v := VisitNode(w, f, s, x);
    var input := GatherPorts(s.outputs, w.connections, x);
    HistoryMore(w, f, start, first, s, x, input);
    assert v.state.log[..|s.log|] == s.log;
    forall y | y in v.next ensures Sent(w, v.state.log, y) {
      NextSent(w, v.state.log, y);
    }
  }

  // ---- Why it ended ----

  /** No look at the cancellation signal from `from` on found it raised, except the last if that ended the walk. */
  predicate Polled(cancelled: nat -> bool, from: nat, r: Walked) {
    && from <= r.state.polls
    && (forall p: nat :: from <= p < r.state.polls && !(r.error == Some(Cancelled) && p == r.state.polls - 1) ==> !cancelled(p))
    && (r.error == Some(Cancelled) ==> from < r.state.polls && cancelled(r.state.polls - 1))
  }

  /** Each way to end, and what the log shows of it. */
  ghost predicate EndsFor(w: Definition, first: Id, r: Walked) {
    var log := r.state.log;
    match r.error
    case None => AllGoOn(w, log)
    case Some(ExecutionFailed(x, reason)) => log != [] && log[|log| - 1].id == x && log[|log| - 1].outcome == Failed(reason)
    case Some(NodeError(x, message)) =>
      && w.errorHandling == "stop" && log != [] && log[|log| - 1].id == x
      && log[|log| - 1].outcome.Returned? && log[|log| - 1].outcome.error == Some(message)
    case Some(NotFound(x)) =>
      x !in NodeIds(w) && AllGoOn(w, log) && if log == [] then x == first else Sent(w, log, x)
    case Some(Cancelled) => AllGoOn(w, log)
    case Some(NoTrigger) => false
  }

  ghost predicate Tells(w: Definition, f: Behavior, cancelled: nat -> bool, start: map<Id, Data>, first: Id, s: EngineState, r: Walked) {
    && History(w, f, start, first, r.state.log) && r.state.outputs == Replay(w, start, r.state.log)
    && EndsFor(w, first, r) && Polled(cancelled, s.polls, r) && s.log <= r.state.log
  }

  lemma VisitStops(w: Definition, f: Behavior, cancelled: nat -> bool, start: map<Id, Data>, first: Id, s: EngineState, x: Id)
    requires Underway(w, f, start, first, s, [x]) && VisitNode(w, f, s, x).Stop?
    ensures var v := VisitNode(w, f, s, x); Tells(w, f, cancelled, start, first, s, Walked(v.stopped, Some(v.error)))
  {
    assert x in [x];
    if x in NodeIds(w) {
      var input := GatherPorts(s.outputs, w.connections, x);
      HistoryMore(w, f, start, first, s, x, input);
      assert VisitNode(w, f, s, x).stopped.log[..|s.log|] == s.log;
    }
  }

  lemma {:induction false} WalkTold(w: Definition, f: Behavior, cancelled: nat -> bool, start: map<Id, Data>, first: Id,
                                    s: EngineState, x: Id, depth: nat)
    requires Underway(w, f, start, first, s, [x]) && BoundedWalk(w, f, cancelled, s, x, depth).Some?
    ensures Tells(w, f, cancelled, start, first, s, BoundedWalk(w, f, cancelled, s, x, depth).value)
    decreases depth, 0, 0
  {
    var v := VisitNode(w, f, s, x);
    if v.Continue? {
      VisitUnderway(w, f, start, first, s, x);
      WalkAllTold(w, f, cancelled, start, first, v.state, v.next, depth - 1);
    } else {
      VisitStops(w, f, cancelled, start, first, s, x);
    }
  }

  lemma {:induction false} WalkAllTold(w: Definition, f: Behavior, cancelled: nat -> bool, start: map<Id, Data>, first: Id,
                                       s: EngineState, targets: seq<Id>, depth: nat)
    requires Underway(w, f, start, first, s, targets) && (targets != [] ==> s.log != [])
    requires BoundedWalkAll(w, f, cancelled, s, targets, depth).Some?
    ensures Tells(w, f, cancelled, start, first, s, BoundedWalkAll(w, f, cancelled, s, targets, depth).value)
    decreases depth, 1, |targets|
  {
    if targets != [] && !cancelled(s.polls) {
      var s' := s.(polls := s.polls + 1);
      assert targets[0] in targets;
      WalkTold(w, f, cancelled, start, first, s', targets[0], depth);
      var r := BoundedWalk(w, f, cancelled, s', targets[0], depth).value;
      if r.error.None? {
        forall y | y in targets[1..] ensures Sent(w, r.state.log, y) {
          assert y in targets;
          SentMore(w, s.log, r.state.log, y);
        }
        WalkAllTold(w, f, cancelled, start, first, r.state, targets[1..], depth);
      }
    }
  }

  /** Everything there is to say about the walk of one Execute call: it starts at the trigger, holding at
      most the trigger data. */
  lemma ExecuteTold(w: Definition, f: Behavior, isTrigger: string -> bool, cancelled: nat -> bool, triggerData: Option<Data>,
                    t: Id, depth: nat)
    requires EngineTrigger(w.nodes, isTrigger) == Some(t)
    requires BoundedWalk(w, f, cancelled, Seeded(t, triggerData), t, depth).Some?
    ensures var start := if triggerData.Some? then map[t := triggerData.value] else map[];
            Tells(w, f, cancelled, start, t, EngineState(start, [], 0), BoundedWalk(w, f, cancelled, Seeded(t, triggerData), t, depth).value)
  {
    WalkTold(w, f, cancelled, Seeded(t, triggerData).outputs, t, Seeded(t, triggerData), t, depth);
  }

  // ---- In which order ----

  /** The nodes still to visit once the executions of `log` are over, each followed by what it selects. */
  function Agenda(w: Definition, first: Id, log: seq<Ran>): seq<Id> {
    if log == [] then [first]
    else
      var before, r := Agenda(w, first, log[..|log| - 1]), log[|log| - 1];
      (if GoesOn(w, r.outcome) then NextNodes(w.connections, r.id, DataOf(r.outcome)) else []) +
      (if before == [] then [] else before[1..])
  }

  predicate RanNext(w: Definition, first: Id, log: seq<Ran>, k: nat)
    requires k < |log|
  {
    Agenda(w, first, log[..k]) != [] && log[k].id == Agenda(w, first, log[..k])[0]
  }

  /** Every execution from position `from` on was that of the first node on the agenda. */
  ghost predicate Ordered(w: Definition, first: Id, log: seq<Ran>, from: nat) {
    forall k :: from <= k < |log| ==> RanNext(w, first, log, k)
  }

  function Extra(error: Option<EngineError>): nat {
    if error.Some? && (error.value.Cancelled? || error.value.NotFound?) then 1 else 0
  }

  lemma OrderedOn(w: Definition, first: Id, a: seq<Ran>, b: seq<Ran>, from: nat)
    requires Ordered(w, first, a, from) && a <= b && Ordered(w, first, b, |a|)
    ensures Ordered(w, first, b, from)
  {
    forall k | from <= k < |b| ensures RanNext(w, first, b, k) {
      if k < |a| {
        assert RanNext(w, first, a, k) && a[..k] == b[..k];
      }
    }
  }

  lemma OrderedMore(w: Definition, first: Id, log: seq<Ran>, r: Ran, rest: seq<Id>)
    requires Agenda(w, first, log) == [r.id] + rest
    ensures Ordered(w, first, log + [r], |log|)
    ensures Agenda(w, first, log + [r]) ==
            (if GoesOn(w, r.outcome) then NextNodes(w.connections, r.id, DataOf(r.outcome)) else []) + rest
  {
    assert (log + [r])[..|log|] == log;
  }

  /** The walk is depth first: it always runs the first node on the agenda, puts what that selects before
      the rest, and ends without error only when it has worked it off.  It looks at the cancellation
      signal once before each node but the first. */
  lemma {:induction false} DepthFirst(w: Definition, f: Behavior, cancelled: nat -> bool, first: Id, s: EngineState, x: Id, depth: nat,
                                      rest: seq<Id>)
    requires Agenda(w, first, s.log) == [x] + rest && BoundedWalk(w, f, cancelled, s, x, depth).Some?
    ensures var r := BoundedWalk(w, f, cancelled, s, x, depth).value;
            && s.log <= r.state.log && Ordered(w, first, r.state.log, |s.log|)
            && (r.error.None? ==> Agenda(w, first, r.state.log) == rest)
            && r.state.polls - s.polls == |r.state.log| - |s.log| - 1 + Extra(r.error)
    decreases depth, 0, 0
  {
    var v := VisitNode(w, f, s, x);
    if x in NodeIds(w) {
      var input := GatherPorts(s.outputs, w.connections, x);
      var log := s.log + [Ran(x, input, f(x, input))];
      OrderedMore(w, first, s.log, Ran(x, input, f(x, input)), rest);
      assert log[..|s.log|] == s.log;
      if v.Continue? {
        AllDepthFirst(w, f, cancelled, first, v.state, v.next, depth - 1, rest);
        OrderedOn(w, first, log, BoundedWalk(w, f, cancelled, s, x, depth).value.state.log, |s.log|);
      }
    }
  }

  lemma {:induction false} AllDepthFirst(w: Definition, f: Behavior, cancelled: nat -> bool, first: Id, s: EngineState, targets: seq<Id>,
                                         depth: nat, rest: seq<Id>)
    requires Agenda(w, first, s.log) == targets + rest && BoundedWalkAll(w, f, cancelled, s, targets, depth).Some?
    ensures var r := BoundedWalkAll(w, f, cancelled, s, targets, depth).value;
            && s.log <= r.state.log && Ordered(w, first, r.state.log, |s.log|)
            && (r.error.None? ==> Agenda(w, first, r.state.log) == rest)
            && r.state.polls - s.polls == |r.state.log| - |s.log| + Extra(r.error)
    decreases depth, 1, |targets|
  {
    if targets != [] && !cancelled(s.polls) {
      var s' := s.(polls := s.polls + 1);
      assert targets + rest == [targets[0]] + (targets[1..] + rest);
      DepthFirst(w, f, cancelled, first, s', targets[0], depth, targets[1..] + rest);
      var r := BoundedWalk(w, f, cancelled, s', targets[0], depth).value;
      if r.error.None? {
        AllDepthFirst(w, f, cancelled, first, r.state, targets[1..], depth, rest);
        OrderedOn(w, first, r.state.log, BoundedWalkAll(w, f, cancelled, s, targets, depth).value.state.log, |s.log|);
      }
    }
  }
}
