/** What every staged run guarantees: each node runs at most once and after all its
    dependencies, and an undisturbed run solves the workflow's equations. */
module StagedProperties {
  import opened Reachability
  import opened Workflow
  import opened Planner
  import opened Runtime
  import opened StagedExecutor

  /** After `k` stages the log holds exactly the nodes of the first `k` levels. */
  lemma {:induction false} LogMembers(w: Definition, stages: seq<seq<PlanNode>>, level: map<Id, nat>, finish: seq<seq<nat>>, k: nat, x: Id)
    requires Lays(w, stages, level) && IsSchedule(stages, finish) && k <= |stages|
    ensures x in Log(stages, finish, k) <==> x in level && level[x] < k
    decreases k
  {
    if k > 0 {
      LogMembers(w, stages, level, finish, k - 1, x);
      var stage, ids := stages[k - 1], FinishedIds(stages[k - 1], finish[k - 1]);
      if x in level && level[x] == k - 1 {
        assert ListedIn(stage, x);
        var j :| 0 <= j < |stage| && stage[j].id == x;
        assert Occurs(finish[k - 1], j);
        var i :| 0 <= i < |finish[k - 1]| && finish[k - 1][i] == j;
        assert ids[i] == x;
      }
    }
  }

  /** Every node runs at most once. */
  lemma {:induction false} EachNodeOnce(w: Definition, stages: seq<seq<PlanNode>>, level: map<Id, nat>, finish: seq<seq<nat>>, k: nat)
    requires Lays(w, stages, level) && IsSchedule(stages, finish) && k <= |stages|
    ensures Once(Log(stages, finish, k))
    decreases k
  {
    if k > 0 {
      EachNodeOnce(w, stages, level, finish, k - 1);
      var front, ids := Log(stages, finish, k - 1), FinishedIds(stages[k - 1], finish[k - 1]);
      FinishedOnce(stages[k - 1], finish[k - 1]);
      var log := Log(stages, finish, k);
      forall p, q | 0 <= p < q < |log| ensures log[p] != log[q] {
        if q < |front| {
          assert log[p] == front[p] && log[q] == front[q];
        } else if p < |front| {
          LogMembers(w, stages, level, finish, k - 1, front[p]);
          assert log[p] == front[p] && front[p] in front;
          var n := stages[k - 1][finish[k - 1][q - |front|]];
          assert log[q] == n.id && level[n.id] == k - 1;
        } else {
          assert log[p] == ids[p - |front|] && log[q] == ids[q - |front|];
        }
      }
    }
  }

  lemma FinishedOnce(stage: seq<PlanNode>, finish: seq<nat>)
    requires DistinctNodes(stage) && IsOrder(finish, |stage|)
    ensures Once(FinishedIds(stage, finish))
  {
  }

  /** When a node runs, all the nodes it depends on have already run, in earlier stages. */
  lemma {:induction false} DependenciesRunFirst(w: Definition, plan: Plan, level: map<Id, nat>, finish: seq<seq<nat>>, k: nat, q: nat, d: Id)
    requires ValidPlan(w, plan, level) && IsSchedule(plan.stages, finish) && k <= |plan.stages|
    requires q < |Log(plan.stages, finish, k)|
    requires (d, Log(plan.stages, finish, k)[q]) in EdgesOf(w.connections)
    ensures exists p :: 0 <= p < q && Log(plan.stages, finish, k)[p] == d
    decreases k
  {
    var front := Log(plan.stages, finish, k - 1);
    if q < |front| {
      DependenciesRunFirst(w, plan, level, finish, k - 1, q, d);
      var p :| 0 <= p < q && front[p] == d;
      assert Log(plan.stages, finish, k)[p] == d;
    } else {
      RanEarlier(w, plan, level, finish, k, Log(plan.stages, finish, k)[q], d);
      var p :| 0 <= p < |front| && front[p] == d;
      assert Log(plan.stages, finish, k)[p] == d;
    }
  }

  lemma RanEarlier(w: Definition, plan: Plan, level: map<Id, nat>, finish: seq<seq<nat>>, k: nat, x: Id, d: Id)
    requires ValidPlan(w, plan, level) && IsSchedule(plan.stages, finish) && 0 < k <= |plan.stages|
    requires x in Log(plan.stages, finish, k) && (d, x) in EdgesOf(w.connections)
    ensures d in Log(plan.stages, finish, k - 1)
  {
    LogMembers(w, plan.stages, level, finish, k, x);
    LogMembers(w, plan.stages, level, finish, k - 1, d);
  }

  // ---- What a run leaves, whatever its nodes do ----

  /** Node `x` ran on the merge of its sources' final outputs.  Unless it complained it left its data, and
      any failure with its text is in its result; without data, the output there was at the start stays. */
  ghost predicate NodeLeft(w: Definition, f: Behavior, start: map<Id, Data>, run: Run, x: Id) {
    var input := Gather(run.outputs, Incoming(w.connections, x));
    && x in run.results
    && run.results[x] == (match f(x, input)
                          case Failed(e) => NodeResult(x, input, None, true, e)
                          case Returned(_, Some(e)) => NodeResult(x, input, None, true, e)
                          case Returned(data, None) => NodeResult(x, input, data, false, ""))
    && match f(x, input)
       case Returned(Some(data), None) => x in run.outputs && run.outputs[x] == data
       case _ => HeldFrom(start, run.outputs, x)
  }

  ghost predicate HeldFrom(start: map<Id, Data>, outputs: map<Id, Data>, x: Id) {
    (x in outputs <==> x in start) && (x in outputs ==> outputs[x] == start[x])
  }

  ghost predicate NotRun(start: map<Id, Data>, run: Run, x: Id) {
    HeldFrom(start, run.outputs, x) && x !in run.results
  }

  /** After `k` stages the nodes of the first `k` levels have run and no others. */
  ghost predicate RunLeft(w: Definition, f: Behavior, level: map<Id, nat>, start: map<Id, Data>, run: Run, k: nat) {
    forall x :: if x in level && level[x] < k then NodeLeft(w, f, start, run, x) else NotRun(start, run, x)
  }

  lemma StageLeaves(w: Definition, f: Behavior, stages: seq<seq<PlanNode>>, level: map<Id, nat>, k: nat, run: Run, x: Id)
    requires Lays(w, stages, level) && k < |stages|
    ensures var after := StageStep(f, stages[k], run);
            if x in level && level[x] == k then EntryIs(run, after, ExecuteNode(f, PlanNodeFor(w, x, k), run.outputs))
            else SameEntry(run, after, x)
  {
    var stage := stages[k];
    if x in level && level[x] == k {
      assert ListedIn(stage, x);
      var j :| 0 <= j < |stage| && stage[j].id == x;
      StageEntry(f, stage, run, InOrder(|stage|), j);
    } else {
      OtherEntry(f, stage, run, InOrder(|stage|), x);
    }
  }

  lemma SourcesUnchanged(w: Definition, f: Behavior, plan: Plan, level: map<Id, nat>, run: Run, k: nat, x: Id)
    requires ValidPlan(w, plan, level) && k < |plan.stages| && x in level && level[x] <= k
    ensures Gather(run.outputs, Incoming(w.connections, x)) ==
            Gather(StageStep(f, plan.stages[k], run).outputs, Incoming(w.connections, x))
  {
    var after := StageStep(f, plan.stages[k], run);
    forall s | s in Incoming(w.connections, x) ensures SameOutput(run, after, s) {
      IncomingMembers(w.connections, x, s);
      StageLeaves(w, f, plan.stages, level, k, run, s);
    }
    GatherFrame(run.outputs, after.outputs, Incoming(w.connections, x));
  }

  lemma LeftStep(w: Definition, f: Behavior, plan: Plan, level: map<Id, nat>, start: map<Id, Data>, run: Run, k: nat, x: Id)
    requires ValidPlan(w, plan, level) && k < |plan.stages| && RunLeft(w, f, level, start, run, k)
    ensures var after := StageStep(f, plan.stages[k], run);
            if x in level && level[x] < k + 1 then NodeLeft(w, f, start, after, x) else NotRun(start, after, x)
  {
    StageLeaves(w, f, plan.stages, level, k, run, x);
    if x in level && level[x] <= k {
      SourcesUnchanged(w, f, plan, level, run, k, x);
      assert level[x] < k ==> NodeLeft(w, f, start, run, x);
      assert level[x] == k ==> NotRun(start, run, x);
    } else {
      assert NotRun(start, run, x);
    }
  }

  /** What the first `k` stages leave of any behaviour, branching and failing included. */
  lemma {:induction false} StagesLeave(w: Definition, f: Behavior, plan: Plan, level: map<Id, nat>, triggerData: Option<Data>, k: nat)
    requires ValidPlan(w, plan, level) && k <= |plan.stages|
    ensures var start := if triggerData.Some? then map[plan.triggerId := triggerData.value] else map[];
            RunLeft(w, f, level, start, RunStages(f, plan.stages[..k], StartOf(plan.triggerId, triggerData)), k)
  {
    if k > 0 {
      StagesLeave(w, f, plan, level, triggerData, k - 1);
      assert plan.stages[..k][..k - 1] == plan.stages[..k - 1];
      var start := if triggerData.Some? then map[plan.triggerId := triggerData.value] else map[];
      var run := RunStages(f, plan.stages[..k - 1], StartOf(plan.triggerId, triggerData));
      forall x ensures if x in level && level[x] < k then NodeLeft(w, f, start, StageStep(f, plan.stages[k - 1], run), x)
                       else NotRun(start, StageStep(f, plan.stages[k - 1], run), x) {
        LeftStep(w, f, plan, level, start, run, k - 1, x);
      }
    }
  }

  /** A complete run of calm nodes gives every node the output its sources determine. */
  lemma StagedRunSolves(w: Definition, f: Behavior, plan: Plan, level: map<Id, nat>, triggerData: Option<Data>)
    requires ValidPlan(w, plan, level) && Calm(f)
    ensures Solves(w, f, RunStages(f, plan.stages, StartOf(plan.triggerId, triggerData)).outputs)
  {
    var start := if triggerData.Some? then map[plan.triggerId := triggerData.value] else map[];
    var run := RunStages(f, plan.stages, StartOf(plan.triggerId, triggerData));
    StagesLeave(w, f, plan, level, triggerData, |plan.stages|);
    assert plan.stages[..|plan.stages|] == plan.stages;
    forall x | x in level ensures x in run.outputs && SolvesAt(w, f, run.outputs, x) {
      assert NodeLeft(w, f, start, run, x);
      assert CalmAt(f, x, Gather(run.outputs, Incoming(w.connections, x)));
    }
    forall x | x in run.outputs ensures x in level {
      assert x !in level ==> NotRun(start, run, x);
    }
  }

  /** The nodes whose outputs are final are those that no connection leaves. */
  lemma FinalsAreSinks(w: Definition, plan: Plan, level: map<Id, nat>, x: Id)
    requires ValidPlan(w, plan, level)
    ensures IsOutputNode(plan.stages, x) <==> x in NodeIds(w) && forall c :: c in w.connections ==> c.source != x
  {
    NothingLeaves(w, x);
    if x in level {
      assert ListedIn(plan.stages[level[x]], x);
      var j :| 0 <= j < |plan.stages[level[x]]| && plan.stages[level[x]][j].id == x;
      assert plan.stages[level[x]][j] == PlanNodeFor(w, x, level[x]);
    }
  }

  lemma NothingLeaves(w: Definition, x: Id)
    ensures Outgoing(w.connections, x) == [] <==> forall c :: c in w.connections ==> c.source != x
  {
    var at := OutgoingListed(w.connections, x);
    if at != [] {
      assert w.connections[at[0]] in w.connections;
    }
  }
}
