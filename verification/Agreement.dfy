/** The two engines compared on one workflow: when they pick the same trigger, and that they then
    leave the same outputs, the only ones that fit the workflow. */
module Agreement {
  import opened Reachability
  import opened Workflow
  import opened Runtime
  import opened Planner
  import opened PlanProperties
  import opened StagedExecutor
  import opened StagedProperties
  import opened RecursiveEngine
  import opened EngineProperties

  // ---- Triggers ----

  /** The planner insists on a trigger without incoming connections, the recursive engine takes the
      first trigger-typed node.  On every workflow where the engine starts from a named node, the
      planner starts from the same one exactly when no connection enters it. */
  lemma TriggersAgree(w: Definition, isTrigger: string -> bool)
    ensures EngineTrigger(w.nodes, isTrigger).None? ==> PlanTrigger(w, isTrigger) == NO_ID
    ensures EngineTrigger(w.nodes, isTrigger).Some? && EngineTrigger(w.nodes, isTrigger).value != NO_ID ==>
              (PlanTrigger(w, isTrigger) == EngineTrigger(w.nodes, isTrigger).value <==>
               InDegree(w.connections, EngineTrigger(w.nodes, isTrigger).value) == 0)
  {
    TriggersAgreeOn(w.nodes, w.connections, isTrigger);
  }

  lemma {:induction false} TriggersAgreeOn(nodes: seq<Node>, conns: seq<Connection>, isTrigger: string -> bool)
    ensures var ok := (n: Node) => InDegree(conns, n.id) == 0 && isTrigger(n.nodeType);
            match EngineTrigger(nodes, isTrigger)
            case None => FirstId(nodes, ok) == NO_ID
            case Some(x) => x != NO_ID ==> (FirstId(nodes, ok) == x <==> InDegree(conns, x) == 0)
  {
    var ok := (n: Node) => InDegree(conns, n.id) == 0 && isTrigger(n.nodeType);
    if nodes != [] {
      if !isTrigger(nodes[0].nodeType) {
        TriggersAgreeOn(nodes[1..], conns, isTrigger);
      } else {
        FirstIdIsMember(nodes, ok);
      }
    }
  }

  lemma NothingEnters(w: Definition, x: Id)
    ensures InDegree(w.connections, x) == 0 <==> forall c :: c in w.connections ==> c.target != x
  {
    PendingZero(w.connections, x, {});
    if InDegree(w.connections, x) == 0 {
      forall c | c in w.connections ensures c.target != x {
        assert (c.source, c.target) in EdgesOf(w.connections);
      }
    }
  }

  lemma {:induction false} EngineTriggerMeans(nodes: seq<Node>, isTrigger: string -> bool) returns (j: nat)
    ensures j <= |nodes| && forall k :: 0 <= k < j ==> !isTrigger(nodes[k].nodeType)
    ensures if j == |nodes| then EngineTrigger(nodes, isTrigger) == None
            else isTrigger(nodes[j].nodeType) && EngineTrigger(nodes, isTrigger) == Some(nodes[j].id)
  {
    j := 0;
    if nodes != [] && !isTrigger(nodes[0].nodeType) {
      j := EngineTriggerMeans(nodes[1..], isTrigger);
      j := j + 1;
    }
  }

  /** Node `i` is the first trigger-typed one that no connection enters, node `j` the first trigger-typed one. */
  lemma TriggersAreFirst(w: Definition, isTrigger: string -> bool) returns (i: nat, j: nat)
    ensures i <= |w.nodes| && forall k :: 0 <= k < i && isTrigger(w.nodes[k].nodeType) ==> exists c :: c in w.connections && c.target == w.nodes[k].id
    ensures if i == |w.nodes| then PlanTrigger(w, isTrigger) == NO_ID
            else && PlanTrigger(w, isTrigger) == w.nodes[i].id && isTrigger(w.nodes[i].nodeType)
                 && forall c :: c in w.connections ==> c.target != w.nodes[i].id
    ensures j <= |w.nodes| && forall k :: 0 <= k < j ==> !isTrigger(w.nodes[k].nodeType)
    ensures if j == |w.nodes| then EngineTrigger(w.nodes, isTrigger) == None
            else EngineTrigger(w.nodes, isTrigger) == Some(w.nodes[j].id) && isTrigger(w.nodes[j].nodeType)
  {
    i := FirstIdMeans(w.nodes, (n: Node) => InDegree(w.connections, n.id) == 0 && isTrigger(n.nodeType));
    j := EngineTriggerMeans(w.nodes, isTrigger);
    forall n | n in w.nodes ensures InDegree(w.connections, n.id) == 0 <==> forall c :: c in w.connections ==> c.target != n.id {
      NothingEnters(w, n.id);
    }
  }

  /** Where all nodes are named, the planner refuses exactly when every trigger-typed node has an
      incoming connection; the recursive engine still runs if there is one. */
  lemma PlannerRefuses(w: Definition, isTrigger: string -> bool)
    requires forall n :: n in w.nodes ==> n.id != NO_ID
    ensures PlanTrigger(w, isTrigger) == NO_ID <==>
            forall n :: n in w.nodes && isTrigger(n.nodeType) ==> InDegree(w.connections, n.id) > 0
    ensures EngineTrigger(w.nodes, isTrigger).Some? <==> exists n :: n in w.nodes && isTrigger(n.nodeType)
  {
    FirstIdNone(w.nodes, (n: Node) => InDegree(w.connections, n.id) == 0 && isTrigger(n.nodeType));
    EngineTriggerNone(w.nodes, isTrigger);
  }

  lemma {:induction false} FirstIdNone(nodes: seq<Node>, ok: Node -> bool)
    requires forall n :: n in nodes ==> n.id != NO_ID
    ensures FirstId(nodes, ok) == NO_ID <==> forall n :: n in nodes ==> !ok(n)
  {
    if nodes != [] {
      FirstIdNone(nodes[1..], ok);
      assert nodes == [nodes[0]] + nodes[1..];
    }
  }

  lemma {:induction false} EngineTriggerNone(nodes: seq<Node>, isTrigger: string -> bool)
    ensures EngineTrigger(nodes, isTrigger).None? <==> forall n :: n in nodes ==> !isTrigger(n.nodeType)
  {
    if nodes != [] {
      EngineTriggerNone(nodes[1..], isTrigger);
      assert nodes == [nodes[0]] + nodes[1..];
    }
  }

  /** They can differ: the planner starts from "a", the recursive engine from "b". */
  lemma TriggersCanDiffer()
    ensures exists w: Definition :: PlanTrigger(w, (t: string) => t == "webhook") == Id("a") &&
                                    EngineTrigger(w.nodes, (t: string) => t == "webhook") == Some(Id("b"))
  {
    var a, b := Node(Id("a"), "webhook", "A"), Node(Id("b"), "webhook", "B");
    var c := Connection(Id("a"), "main", Id("b"), "main");
    var nodes, conns := [b, a], [c];
    var w := Definition(nodes, conns, "stop");
    assert Id("a") != Id("b") by { assert "a"[0] != "b"[0]; }
    assert conns[..|conns| - 1] == [];
    PendingZero(conns, Id("a"), {});
    PendingZero(conns, Id("b"), {});
    assert EdgesOf(conns) == {(Id("a"), Id("b"))};
    assert (Id("a"), Id("b")) in EdgesOf(conns);
    assert InDegree(conns, Id("b")) != 0;
    assert InDegree(conns, Id("a")) == 0;
    var ok := (n: Node) => InDegree(conns, n.id) == 0 && ((t: string) => t == "webhook")(n.nodeType);
    assert nodes[1..] == [a];
    assert !ok(b) && ok(a);
    assert FirstId([a], ok) == Id("a");
    assert FirstId(nodes, ok) == Id("a");
    assert Id("a") != NO_ID by { assert |"a"| != |""|; }
    assert PlanTrigger(w, (t: string) => t == "webhook") == Id("a");
  }

  // ---- Inputs ----

  /** The port names under which the recursive engine files extra entries in the input of `n`. */
  function Ports(conns: seq<Connection>, n: Id): set<string> {
    set c | c in conns && c.target == n :: c.targetPort
  }

  ghost predicate AgreeOutside(names: set<string>, a: Data, b: Data) {
    forall k :: k !in names ==> (k in a <==> k in b) && (k in a ==> a[k] == b[k])
  }

  /** Nodes that do not look at the port-named entries, which only one of the engines supplies. */
  ghost predicate PortBlind(w: Definition, f: Behavior) {
    forall n, a, b {:trigger f(n, a), f(n, b)} :: AgreeOutside(Ports(w.connections, n), a, b) ==> f(n, a) == f(n, b)
  }

  lemma OverlayAgrees(names: set<string>, a: Data, b: Data, output: Data)
    requires AgreeOutside(names, a, b)
    ensures AgreeOutside(names, Overlay(a, output), Overlay(b, output))
  {
  }

  lemma ExtraEntryAgrees(names: set<string>, a: Data, b: Data, port: string, v: Value)
    requires AgreeOutside(names, a, b) && port in names
    ensures AgreeOutside(names, a[port := v], b)
  {
  }

  /** The two engines merge the same data, up to the port-named entries. */
  lemma {:induction false} InputsAgree(outputs: map<Id, Data>, conns: seq<Connection>, n: Id, names: set<string>)
    requires Ports(conns, n) <= names
    ensures AgreeOutside(names, GatherPorts(outputs, conns, n), Gather(outputs, Incoming(conns, n)))
  {
    if conns != [] {
      var front, last := conns[..|conns| - 1], conns[|conns| - 1];
      assert conns == front + [last];
      InputsAgree(outputs, front, n, names);
      if last.target == n {
        assert last.targetPort in Ports(conns, n);
        var ins := Incoming(conns, n);
        assert ins == Incoming(front, n) + [last.source] && ins[..|ins| - 1] == Incoming(front, n);
        assert ins[|ins| - 1] == last.source;
        if last.source in outputs {
          var a, b, o := GatherPorts(outputs, front, n), Gather(outputs, Incoming(front, n)), outputs[last.source];
          OverlayAgrees(names, a, b, o);
          ExtraEntryAgrees(names, Overlay(a, o), Overlay(b, o), last.targetPort, Fields(o));
        }
      } else {
        assert Incoming(conns, n) == Incoming(front, n);
      }
    }
  }

  /** For port-blind nodes a settled node holds what the workflow's equations demand. */
  lemma SettledSolves(w: Definition, f: Behavior, outputs: map<Id, Data>, n: Id)
    requires PortBlind(w, f) && Settled(w, f, outputs, n)
    ensures SolvesAt(w, f, outputs, n)
  {
    InputsAgree(outputs, w.connections, n, Ports(w.connections, n));
    var a, b := GatherPorts(outputs, w.connections, n), Gather(outputs, Incoming(w.connections, n));
    assert f(n, a) == f(n, b);
  }

  // ---- Outputs ----

  lemma {:induction false} ReachStaysInside(w: Definition, a: Id, b: Id, p: seq<Id>)
    requires Closed(w) && a in NodeIds(w) && PathBetween(EdgesOf(w.connections), a, b, p)
    ensures b in NodeIds(w)
    decreases |p|
  {
    if |p| > 1 {
      assert (p[|p| - 2], b) in EdgesOf(w.connections);
      TargetIsNode(w, p[|p| - 2], b);
    }
  }

  lemma ClosedIsAcyclic(w: Definition, t: Id)
    requires Closed(w) && Plannable(w, t)
    ensures Acyclic(EdgesOf(w.connections))
  {
    forall x | x in EdgesOf(w.connections) ensures x in InnerEdges(w) {
      TargetIsNode(w, x.0, x.1);
    }
    AcyclicSubset(EdgesOf(w.connections), InnerEdges(w));
  }

  /** The recursive walk from the only source solves the workflow. */
  lemma WalkSolves(w: Definition, f: Behavior, cancelled: nat -> bool, t: Id, level: map<Id, nat>, triggerData: Option<Data>)
    requires Closed(w) && Acyclic(EdgesOf(w.connections)) && t in NodeIds(w)
    requires Levels(EdgesOf(w.connections), t, level) && level.Keys == NodeIds(w)
    requires Calm(f) && PortBlind(w, f) && NeverCancelled(cancelled)
    ensures Walk(w, f, cancelled, Seeded(t, triggerData), t).error == None
    ensures Solves(w, f, Walk(w, f, cancelled, Seeded(t, triggerData), t).state.outputs)
  {
    var e, s := EdgesOf(w.connections), Seeded(t, triggerData);
    var after := Walk(w, f, cancelled, s, t).state.outputs;
    WalkCountsPaths(w, f, cancelled, s, t, t);
    forall n | n in NodeIds(w) ensures n in after && SolvesAt(w, f, after, n) {
      var p := PathOfLevelLength(e, t, level, n);
      WalkSettles(w, f, cancelled, s, t, n);
      SettledSolves(w, f, after, n);
    }
    forall n | n in after ensures n in NodeIds(w) {
      WalkSettles(w, f, cancelled, s, t, n);
      if Reach(e, t, n) {
        var p :| PathBetween(e, t, n, p);
        ReachStaysInside(w, t, n, p);
      }
    }
    assert after.Keys == NodeIds(w);
  }

  /** Agreement. On a closed workflow that can be staged, with calm, port-blind nodes and the same
      trigger, both engines finish with the same output for every node: the unique solution of the
      workflow's equations. */
  lemma EnginesAgree(w: Definition, isTrigger: string -> bool, f: Behavior, cancelled: nat -> bool,
                     plan: Plan, level: map<Id, nat>, triggerData: Option<Data>)
    requires Closed(w) && Plannable(w, plan.triggerId) && ValidPlan(w, plan, level)
    requires EngineTrigger(w.nodes, isTrigger) == Some(plan.triggerId)
    requires Calm(f) && PortBlind(w, f) && NeverCancelled(cancelled)
    ensures Acyclic(EdgesOf(w.connections))
    ensures var walked := Walk(w, f, cancelled, Seeded(plan.triggerId, triggerData), plan.triggerId);
            var staged := RunStages(f, plan.stages, StartOf(plan.triggerId, triggerData));
            && walked.error == None
            && walked.state.outputs == staged.outputs
            && Solves(w, f, staged.outputs)
            && forall out :: Solves(w, f, out) ==> out == staged.outputs
  {
    ClosedIsAcyclic(w, plan.triggerId);
    WalkSolves(w, f, cancelled, plan.triggerId, level, triggerData);
    StagedRunSolves(w, f, plan, level, triggerData);
    var walked := Walk(w, f, cancelled, Seeded(plan.triggerId, triggerData), plan.triggerId);
    var staged := RunStages(f, plan.stages, StartOf(plan.triggerId, triggerData));
    forall out | Solves(w, f, out) ensures out == staged.outputs {
      SolutionUnique(w, f, out, staged.outputs);
    }
  }

  /** On such a workflow the staged executor runs every node once, the recursive engine once per
      connection path from the trigger; both run every node. */
  lemma RunsAreWhole(w: Definition, f: Behavior, cancelled: nat -> bool, plan: Plan, level: map<Id, nat>,
                     triggerData: Option<Data>, finish: seq<seq<nat>>, n: Id)
    requires Closed(w) && Plannable(w, plan.triggerId) && ValidPlan(w, plan, level) && IsSchedule(plan.stages, finish)
    requires Calm(f) && NeverCancelled(cancelled) && n in NodeIds(w)
    ensures Acyclic(EdgesOf(w.connections))
    ensures multiset(Log(plan.stages, finish, |plan.stages|))[n] == 1
    ensures multiset(Visits(Walk(w, f, cancelled, Seeded(plan.triggerId, triggerData), plan.triggerId).state.log))[n]
            == |PathsTo(w.connections, plan.triggerId, n)|
  {
    ClosedIsAcyclic(w, plan.triggerId);
    WalkCountsPaths(w, f, cancelled, Seeded(plan.triggerId, triggerData), plan.triggerId, n);
    EachNodeOnce(w, plan.stages, level, finish, |plan.stages|);
    LogMembers(w, plan.stages, level, finish, |plan.stages|, n);
    OnceMeansOne(Log(plan.stages, finish, |plan.stages|), n);
  }

  lemma {:induction false} OnceMeansOne(log: seq<Id>, n: Id)
    requires Once(log) && n in log
    ensures multiset(log)[n] == 1
  {
    var front, last := log[..|log| - 1], log[|log| - 1];
    assert log == front + [last];
    if n in front {
      OnceMeansOne(front, n);
    }
  }
}
