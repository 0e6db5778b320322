/** The recursive engine (internal/engine/engine.go): depth-first execution from the trigger,
    running a node again each time the walk arrives at it. */
module RecursiveEngine {
  import opened Reachability
  import opened Workflow
  import opened Runtime

  datatype EngineError = NoTrigger | NotFound(id: Id) | ExecutionFailed(id: Id, reason: string) | NodeError(id: Id, message: string) | Cancelled

  /** One execution of a node. */
  datatype Ran = Ran(id: Id, input: Data, outcome: Outcome)

  /** `log` lists the executions in order; `polls` counts the looks at the cancellation signal. */
  datatype EngineState = EngineState(outputs: map<Id, Data>, log: seq<Ran>, polls: nat)

  /** The nodes in the order in which they ran. */
  function Visits(log: seq<Ran>): seq<Id> {
    seq(|log|, i requires 0 <= i < |log| => log[i].id)
  }

  lemma VisitsMore(log: seq<Ran>, r: Ran)
    ensures Visits(log + [r]) == Visits(log) + [r.id]
  {
  }

  datatype Walked = Walked(state: EngineState, error: Option<EngineError>)

  /** buildNodeInput: like the staged merge, but every source output is also filed under the
      target port of its connection. */
  function GatherPorts(outputs: map<Id, Data>, conns: seq<Connection>, x: Id): Data {
    if conns == [] then map[]
    else
      var front, last := GatherPorts(outputs, conns[..|conns| - 1], x), conns[|conns| - 1];
      if last.target == x && last.source in outputs then
        Overlay(front, outputs[last.source])[last.targetPort := Fields(outputs[last.source])]
      else front
  }

  /** Connection `i` into `x` gives the input the entry `k`: its target port, or a key its source holds. */
  predicate Sets(outputs: map<Id, Data>, conns: seq<Connection>, x: Id, k: string, i: int) {
    && 0 <= i < |conns| && conns[i].target == x && conns[i].source in outputs
    && (k == conns[i].targetPort || (k != "_output" && k != "_loopState" && k in outputs[conns[i].source]))
  }

  /** What the input holds, key by key: the whole output of a source under a port name, otherwise its
      value of that key, in either case from the last connection that sets it. */
  lemma {:induction false} GatherPortsHolds(outputs: map<Id, Data>, conns: seq<Connection>, x: Id, k: string)
    ensures k in GatherPorts(outputs, conns, x) <==> exists i :: Sets(outputs, conns, x, k, i)
    ensures k in GatherPorts(outputs, conns, x) ==>
            exists i :: Sets(outputs, conns, x, k, i) && (forall j :: i < j ==> !Sets(outputs, conns, x, k, j))
                        && GatherPorts(outputs, conns, x)[k] ==
                             if k == conns[i].targetPort then Fields(outputs[conns[i].source]) else outputs[conns[i].source][k]
  {
    if conns != [] {
      var front, n := conns[..|conns| - 1], |conns| - 1;
      GatherPortsHolds(outputs, front, x, k);
      assert forall i :: Sets(outputs, conns, x, k, i) <==>
                         Sets(outputs, front, x, k, i) || (i == n && Sets(outputs, conns, x, k, n));
      if Sets(outputs, conns, x, k, n) {
        assert forall j :: n < j ==> !Sets(outputs, conns, x, k, j);
      }
    }
  }

  /** Targets of the connections that leave `x` through `port`. */
  function BranchTargets(conns: seq<Connection>, x: Id, port: string): seq<Id> {
    if conns == [] then []
    else
      var last := conns[|conns| - 1];
      BranchTargets(conns[..|conns| - 1], x, port) + (if last.source == x && last.sourcePort == port then [last.target] else [])
  }

  function NextNodes(conns: seq<Connection>, x: Id, data: Data): seq<Id> {
    match SelectedPort(data)
    case Some(port) => BranchTargets(conns, x, port)
    case None => Outgoing(conns, x)
  }

  lemma {:induction false} BranchListed(conns: seq<Connection>, x: Id, port: string) returns (at: seq<nat>)
    ensures Positions(conns, at, (c: Connection) => c.source == x && c.sourcePort == port)
    ensures |BranchTargets(conns, x, port)| == |at|
    ensures forall k :: 0 <= k < |at| ==> BranchTargets(conns, x, port)[k] == conns[at[k]].target
  {
    at := [];
    if |conns| > 0 {
      at := BranchListed(conns[..|conns| - 1], x, port);
      at := PositionsMore(conns, at, (c: Connection) => c.source == x && c.sourcePort == port);
    }
  }

  /** The next nodes are the targets of exactly the connections that leave `x`, and if its data names an
      output port, leave it through that port, in order, parallel ones each. */
  lemma NextListed(conns: seq<Connection>, x: Id, data: Data) returns (at: seq<nat>)
    ensures Positions(conns, at, (c: Connection) =>
              c.source == x && ("_output" in data && data["_output"].Text? ==> c.sourcePort == data["_output"].text))
    ensures |NextNodes(conns, x, data)| == |at|
    ensures forall k :: 0 <= k < |at| ==> NextNodes(conns, x, data)[k] == conns[at[k]].target
  {
    match SelectedPort(data) {
      case Some(port) => at := BranchListed(conns, x, port);
      case None => at := OutgoingListed(conns, x);
    }
  }

  lemma {:induction false} BranchMembers(conns: seq<Connection>, x: Id, port: string, y: Id)
    requires y in BranchTargets(conns, x, port)
    ensures (x, y) in EdgesOf(conns)
  {
    var front, last := conns[..|conns| - 1], conns[|conns| - 1];
    assert conns == front + [last];
    assert EdgesOf(conns) == EdgesOf(front) + {(last.source, last.target)};
    if y in BranchTargets(front, x, port) {
      BranchMembers(front, x, port, y);
    }
  }

  lemma NextAreSuccessors(conns: seq<Connection>, x: Id, data: Data)
    ensures Successors(conns, x, NextNodes(conns, x, data))
  {
    forall y | y in NextNodes(conns, x, data) ensures (x, y) in EdgesOf(conns) {
      match SelectedPort(data) {
        case Some(port) => BranchMembers(conns, x, port, y);
        case None => OutgoingMembers(conns, x, y);
      }
    }
  }

  ghost predicate Successors(conns: seq<Connection>, x: Id, targets: seq<Id>) {
    forall y :: y in targets ==> (x, y) in EdgesOf(conns)
  }

  /** What one arrival at `x` does before the walk goes on: the state, and the nodes to visit next
      or the error that ends the walk. */
  datatype Visit = Stop(stopped: EngineState, error: EngineError) | Continue(state: EngineState, next: seq<Id>)

  function VisitNode(w: Definition, f: Behavior, s: EngineState, x: Id): Visit {
    if x !in NodeIds(w) then Stop(s, NotFound(x))
    else
      var input := GatherPorts(s.outputs, w.connections, x);
      var s' := s.(log := s.log + [Ran(x, input, f(x, input))]);
      match f(x, input)
      case Failed(reason) => Stop(s', ExecutionFailed(x, reason))
      case Returned(data, error) =>
        if error.Some? && w.errorHandling == "stop" then Stop(s', NodeError(x, error.value))
        else
          var stored := if data.Some? then data.value else map[];
          Continue(s'.(outputs := s'.outputs[x := stored]), NextNodes(w.connections, x, stored))
  }

  /** executeFromNode. Acyclicity is what makes the recursion end. */
  function Walk(w: Definition, f: Behavior, cancelled: nat -> bool, s: EngineState, x: Id): Walked
    requires Acyclic(EdgesOf(w.connections))
    decreases |Below(EdgesOf(w.connections), x)|, 1, 0
  {
    match VisitNode(w, f, s, x)
    case Stop(s', e) => Walked(s', Some(e))
    case Continue(s', next) =>
      NextAreSuccessors(w.connections, x, s'.outputs[x]);
      WalkAll(w, f, cancelled, s', x, next)
  }

  function WalkAll(w: Definition, f: Behavior, cancelled: nat -> bool, s: EngineState, x: Id, targets: seq<Id>): Walked
    requires Acyclic(EdgesOf(w.connections)) && Successors(w.connections, x, targets)
    decreases |Below(EdgesOf(w.connections), x)|, 0, |targets|
  {
    if targets == [] then Walked(s, None)
    else if cancelled(s.polls) then Walked(s.(polls := s.polls + 1), Some(Cancelled))
    else
      BelowShrinks(EdgesOf(w.connections), x, targets[0]);
      var first := Walk(w, f, cancelled, s.(polls := s.polls + 1), targets[0]);
      if first.error.Some? then first else WalkAll(w, f, cancelled, first.state, x, targets[1..])
  }

  /** executeFromNode on any graph, with at most `depth` calls nested; None if it needs more. */
  function BoundedWalk(w: Definition, f: Behavior, cancelled: nat -> bool, s: EngineState, x: Id, depth: nat): Option<Walked>
    decreases depth, 0, 0
  {
    if depth == 0 then None
    else
      match VisitNode(w, f, s, x)
      case Stop(s', e) => Some(Walked(s', Some(e)))
      case Continue(s', next) => BoundedWalkAll(w, f, cancelled, s', next, depth - 1)
  }

  function BoundedWalkAll(w: Definition, f: Behavior, cancelled: nat -> bool, s: EngineState, targets: seq<Id>, depth: nat): Option<Walked>
    decreases depth, 1, |targets|
  {
    if targets == [] then Some(Walked(s, None))
    else if cancelled(s.polls) then Some(Walked(s.(polls := s.polls + 1), Some(Cancelled)))
    else
      match BoundedWalk(w, f, cancelled, s.(polls := s.polls + 1), targets[0], depth)
      case None => None
      case Some(first) =>
        if first.error.Some? then Some(first) else BoundedWalkAll(w, f, cancelled, first.state, targets[1..], depth)
  }

  /** The walk ends: some depth is enough for it. */
  ghost predicate Ends(w: Definition, f: Behavior, cancelled: nat -> bool, s: EngineState, x: Id) {
    exists depth :: BoundedWalk(w, f, cancelled, s, x, depth).Some?
  }

  /** More depth changes nothing. */
  lemma {:induction false} DeeperIsSame(w: Definition, f: Behavior, cancelled: nat -> bool, s: EngineState, x: Id, depth: nat, more: nat)
    requires BoundedWalk(w, f, cancelled, s, x, depth).Some? && depth <= more
    ensures BoundedWalk(w, f, cancelled, s, x, more) == BoundedWalk(w, f, cancelled, s, x, depth)
    decreases depth, 0, 0
  {
    var v := VisitNode(w, f, s, x);
    if v.Continue? {
      DeeperIsSameAll(w, f, cancelled, v.state, v.next, depth - 1, more - 1);
    }
  }

  lemma {:induction false} DeeperIsSameAll(w: Definition, f: Behavior, cancelled: nat -> bool, s: EngineState, targets: seq<Id>, depth: nat, more: nat)
    requires BoundedWalkAll(w, f, cancelled, s, targets, depth).Some? && depth <= more
    ensures BoundedWalkAll(w, f, cancelled, s, targets, more) == BoundedWalkAll(w, f, cancelled, s, targets, depth)
    decreases depth, 1, |targets|
  {
    if targets != [] && !cancelled(s.polls) {
      var s' := s.(polls := s.polls + 1);
      DeeperIsSame(w, f, cancelled, s', targets[0], depth, more);
      var first := BoundedWalk(w, f, cancelled, s', targets[0], depth).value;
      if first.error.None? {
        DeeperIsSameAll(w, f, cancelled, first.state, targets[1..], depth, more);
      }
    }
  }

  /** On an acyclic graph the walk ends, whatever its nodes do, within the number of nodes below it. */
  lemma {:induction false} AcyclicWalkEnds(w: Definition, f: Behavior, cancelled: nat -> bool, s: EngineState, x: Id, depth: nat)
    requires Acyclic(EdgesOf(w.connections)) && depth >= |Below(EdgesOf(w.connections), x)|
    ensures BoundedWalk(w, f, cancelled, s, x, depth) == Some(Walk(w, f, cancelled, s, x))
    decreases depth, 0, 0
  {
    ReachSelf(EdgesOf(w.connections), x);
    assert x in Below(EdgesOf(w.connections), x);
    var v := VisitNode(w, f, s, x);
    if v.Continue? {
      NextAreSuccessors(w.connections, x, v.state.outputs[x]);
      AcyclicWalkAllEnds(w, f, cancelled, v.state, x, v.next, depth - 1);
    }
  }

  lemma {:induction false} AcyclicWalkAllEnds(w: Definition, f: Behavior, cancelled: nat -> bool, s: EngineState, x: Id, targets: seq<Id>, depth: nat)
    requires Acyclic(EdgesOf(w.connections)) && Successors(w.connections, x, targets)
    requires depth + 1 >= |Below(EdgesOf(w.connections), x)|
    ensures BoundedWalkAll(w, f, cancelled, s, targets, depth) == Some(WalkAll(w, f, cancelled, s, x, targets))
    decreases depth, 1, |targets|
  {
    if targets != [] && !cancelled(s.polls) {
      BelowShrinks(EdgesOf(w.connections), x, targets[0]);
      var s' := s.(polls := s.polls + 1);
      AcyclicWalkEnds(w, f, cancelled, s', targets[0], depth);
      var first := Walk(w, f, cancelled, s', targets[0]);
      if first.error.None? {
        AcyclicWalkAllEnds(w, f, cancelled, first.state, x, targets[1..], depth);
      }
    }
  }

  /** The engine's trigger: the first trigger-typed node, whatever its connections. */
  function EngineTrigger(nodes: seq<Node>, isTrigger: string -> bool): Option<Id> {
    if nodes == [] then None
    else if isTrigger(nodes[0].nodeType) then Some(nodes[0].id)
    else EngineTrigger(nodes[1..], isTrigger)
  }

  /** The state of one workflow execution. */
  class Execution {
    var nodeOutputs: map<Id, Data>
    var currentNode: Id
    var log: seq<Ran>
    var polls: nat

    function State(): EngineState
      reads this
    {
      EngineState(nodeOutputs, log, polls)
    }

    constructor ()
      ensures State() == EngineState(map[], [], 0)
    {
      nodeOutputs, log, polls := map[], [], 0;
    }

    method BuildNodeInput(w: Definition, x: Id) returns (input: Data)
      ensures input == GatherPorts(nodeOutputs, w.connections, x)
      ensures forall k :: k in input <==> exists i :: Sets(nodeOutputs, w.connections, x, k, i)
      ensures forall k :: k in input ==>
                exists i :: Sets(nodeOutputs, w.connections, x, k, i) && (forall j :: i < j ==> !Sets(nodeOutputs, w.connections, x, k, j))
                            && var output := nodeOutputs[w.connections[i].source];
                               input[k] == if k == w.connections[i].targetPort then Fields(output) else output[k]
    {
      input := map[];
      for i := 0 to |w.connections|
        invariant input == GatherPorts(nodeOutputs, w.connections[..i], x)
      {
        assert w.connections[..i + 1][..i] == w.connections[..i];
        var c := w.connections[i];
        if c.target == x && c.source in nodeOutputs {
          input := Overlay(input, nodeOutputs[c.source]);
          input := input[c.targetPort := Fields(nodeOutputs[c.source])];
        }
      }
      assert w.connections[..|w.connections|] == w.connections;
      forall k {
        GatherPortsHolds(nodeOutputs, w.connections, x, k);
      }
    }

    method SelectNext(w: Definition, x: Id, data: Data) returns (next: seq<Id>)
      ensures next == NextNodes(w.connections, x, data)
      ensures exists at ::
                && Positions(w.connections, at, (c: Connection) =>
                     c.source == x && ("_output" in data && data["_output"].Text? ==> c.sourcePort == data["_output"].text))
                && |next| == |at| && forall k :: 0 <= k < |at| ==> next[k] == w.connections[at[k]].target
    {
      var port := SelectedPort(data);
      next := [];
      for i := 0 to |w.connections|
        invariant next == NextNodes(w.connections[..i], x, data)
      {
        assert w.connections[..i + 1][..i] == w.connections[..i];
        var c := w.connections[i];
        if c.source == x && (port.None? || c.sourcePort == port.value) {
          next := next + [c.target];
        }
      }
      assert w.connections[..|w.connections|] == w.connections;
      ghost var at := NextListed(w.connections, x, data);
    }

    /** The first half of executeFromNode: the node itself, and where to go from it. */
    method RunNode(w: Definition, f: Behavior, x: Id) returns (error: Option<EngineError>, next: seq<Id>)
      modifies this
      ensures VisitNode(w, f, old(State()), x) == if error.Some? then Stop(State(), error.value) else Continue(State(), next)
      ensures error.None? ==> x in nodeOutputs && next == NextNodes(w.connections, x, nodeOutputs[x])
    {
      next := [];
      if x !in NodeIds(w) {
        return Some(NotFound(x)), next;
      }
      currentNode := x;
      var input := BuildNodeInput(w, x);
      var outcome := f(x, input);
      log := log + [Ran(x, input, outcome)];
      match outcome {
        case Failed(reason) =>
          return Some(ExecutionFailed(x, reason)), next;
        case Returned(data, e) =>
          if e.Some? && w.errorHandling == "stop" {
            return Some(NodeError(x, e.value)), next;
          }
          nodeOutputs := nodeOutputs[x := if data.Some? then data.value else map[]];
          next := SelectNext(w, x, nodeOutputs[x]);
          error := None;
      }
    }

    /** Specified for exactly the walks that end; `depth` is any bound on how deep this one nests. */
    method ExecuteFromNode(w: Definition, f: Behavior, cancelled: nat -> bool, x: Id, ghost depth: nat) returns (error: Option<EngineError>)
      requires BoundedWalk(w, f, cancelled, State(), x, depth).Some?
      modifies this
      ensures BoundedWalk(w, f, cancelled, old(State()), x, depth) == Some(Walked(State(), error))
      decreases depth
    {
      var next;
      error, next := RunNode(w, f, x);
      if error.Some? {
        return;
      }
      ghost var expected := BoundedWalkAll(w, f, cancelled, State(), next, depth - 1);
      for i := 0 to |next|
        invariant expected.Some? && BoundedWalkAll(w, f, cancelled, State(), next[i..], depth - 1) == expected
      {
        BoundedFrom(w, f, cancelled, State(), next, i, depth - 1);
        polls := polls + 1;
        if cancelled(polls - 1) {
          return Some(Cancelled);
        }
        var e := ExecuteFromNode(w, f, cancelled, next[i], depth - 1);
        if e.Some? {
          return e;
        }
      }
      error := None;
    }

    /** Execute: choose the trigger, seed its output with the trigger data, walk. */
    method Execute(w: Definition, f: Behavior, isTrigger: string -> bool, triggerData: Option<Data>, cancelled: nat -> bool,
                   ghost depth: nat)
      returns (error: Option<EngineError>)
      requires State() == EngineState(map[], [], 0)
      requires EngineTrigger(w.nodes, isTrigger).Some? ==>
                 BoundedWalk(w, f, cancelled, Seeded(EngineTrigger(w.nodes, isTrigger).value, triggerData),
                             EngineTrigger(w.nodes, isTrigger).value, depth).Some?
      modifies this
      ensures EngineTrigger(w.nodes, isTrigger).None? ==> error == Some(NoTrigger) && State() == old(State())
      ensures EngineTrigger(w.nodes, isTrigger).Some? ==>
                Some(Walked(State(), error)) ==
                BoundedWalk(w, f, cancelled, Seeded(EngineTrigger(w.nodes, isTrigger).value, triggerData),
                            EngineTrigger(w.nodes, isTrigger).value, depth)
    {
      var trigger: Option<Id> := None;
      for i := 0 to |w.nodes|
        invariant trigger.None? && EngineTrigger(w.nodes, isTrigger) == EngineTrigger(w.nodes[i..], isTrigger)
      {
        if isTrigger(w.nodes[i].nodeType) {
          trigger := Some(w.nodes[i].id);
          break;
        }
      }
      if trigger.None? {
        return Some(NoTrigger);
      }
      if triggerData.Some? {
        nodeOutputs := nodeOutputs[trigger.value := triggerData.value];
      }
      error := ExecuteFromNode(w, f, cancelled, trigger.value, depth);
    }
  }

  lemma BoundedFrom(w: Definition, f: Behavior, cancelled: nat -> bool, s: EngineState, targets: seq<Id>, i: nat, depth: nat)
    requires i < |targets| && BoundedWalkAll(w, f, cancelled, s, targets[i..], depth).Some?
    ensures cancelled(s.polls) ==>
              BoundedWalkAll(w, f, cancelled, s, targets[i..], depth) == Some(Walked(s.(polls := s.polls + 1), Some(Cancelled)))
    ensures !cancelled(s.polls) ==>
              var first := BoundedWalk(w, f, cancelled, s.(polls := s.polls + 1), targets[i], depth);
              && first.Some?
              && BoundedWalkAll(w, f, cancelled, s, targets[i..], depth) ==
                   if first.value.error.Some? then first
                   else BoundedWalkAll(w, f, cancelled, first.value.state, targets[i + 1..], depth)
  {
    assert targets[i..][1..] == targets[i + 1..];
  }

  function Seeded(trigger: Id, triggerData: Option<Data>): EngineState {
    EngineState(if triggerData.Some? then map[trigger := triggerData.value] else map[], [], 0)
  }
}
