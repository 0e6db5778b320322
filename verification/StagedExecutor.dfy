/** The staged executor (internal/engine/executor.go): stages one after the other, the nodes of
    a stage in parallel. Within a stage nothing shared is written, so the only freedom left to
    the scheduler is the order in which results and errors arrive. */
module StagedExecutor {
  import opened Reachability
  import opened Workflow
  import opened Planner
  import opened Runtime

  /** The error text is empty when there is none, and also when a node fails with an empty message. */
  datatype NodeResult = NodeResult(id: Id, input: Data, output: Option<Data>, failed: bool, error: string)

  /** What executePlan accumulates: a result per executed node and the outputs later stages read. */
  datatype Run = Run(results: map<Id, NodeResult>, outputs: map<Id, Data>)

  function ExecuteNode(f: Behavior, n: PlanNode, outputs: map<Id, Data>): NodeResult {
    var input := Gather(outputs, n.dependencies);
    match f(n.id, input)
    case Failed(e) => NodeResult(n.id, input, None, true, e)
    case Returned(_, Some(e)) => NodeResult(n.id, input, None, true, e)
    case Returned(data, None) => NodeResult(n.id, input, data, false, "")
  }

  function Record(run: Run, r: NodeResult): Run {
    Run(run.results[r.id := r], if r.output.Some? then run.outputs[r.id := r.output.value] else run.outputs)
  }

  function Collect(run: Run, arrived: seq<NodeResult>): Run {
    if arrived == [] then run else Record(Collect(run, arrived[..|arrived| - 1]), arrived[|arrived| - 1])
  }

  /** The results of a stage, in the order `order` in which its goroutines finish. */
  function Arrivals(f: Behavior, stage: seq<PlanNode>, outputs: map<Id, Data>, order: seq<nat>): seq<NodeResult>
    requires IsOrder(order, |stage|)
  {
    seq(|order|, i requires 0 <= i < |order| => ExecuteNode(f, stage[order[i]], outputs))
  }

  /** `order` lists every index below `n` exactly once. */
  predicate IsOrder(order: seq<nat>, n: nat) {
    && |order| == n
    && (forall i :: 0 <= i < n ==> order[i] < n)
    && (forall j: nat :: j < n ==> Occurs(order, j))
    && (forall i, j :: 0 <= i < j < n ==> order[i] != order[j])
  }

  function InOrder(n: nat): (r: seq<nat>)
    ensures IsOrder(r, n)
  {
    var r := seq(n, i => i);
    EachOccurs(r);
    r
  }

  lemma EachOccurs(r: seq<nat>)
    requires forall i :: 0 <= i < |r| ==> r[i] == i
    ensures forall j: nat :: j < |r| ==> Occurs(r, j)
  {
    forall j: nat | j < |r| ensures Occurs(r, j) {
      assert r[j] == j;
    }
  }

  predicate Occurs(order: seq<nat>, j: nat) {
    exists i :: 0 <= i < |order| && order[i] == j
  }

  function StageStep(f: Behavior, stage: seq<PlanNode>, run: Run): Run {
    Collect(run, Arrivals(f, stage, run.outputs, InOrder(|stage|)))
  }

  function RunStages(f: Behavior, stages: seq<seq<PlanNode>>, start: Run): Run {
    if stages == [] then start
    else StageStep(f, stages[|stages| - 1], RunStages(f, stages[..|stages| - 1], start))
  }

  /** The node breaks down, or attaches an error, with the text `e`. */
  predicate Complains(o: Outcome, e: string) {
    o == Failed(e) || (o.Returned? && o.error == Some(e))
  }

  /** Some node of the stage, run on the merge of its dependencies' outputs, complains with the text `e`;
      a complaint is noticed by its text, so that one with an empty text passes for none. */
  predicate ErrorOf(f: Behavior, stage: seq<PlanNode>, outputs: map<Id, Data>, e: string) {
    e != "" && exists j :: 0 <= j < |stage| && Complains(f(stage[j].id, Gather(outputs, stage[j].dependencies)), e)
  }

  ghost predicate StageFails(f: Behavior, stage: seq<PlanNode>, outputs: map<Id, Data>) {
    exists e :: ErrorOf(f, stage, outputs, e)
  }

  /** What a run of a node leaves: its merged input, and either a failure with the text of its complaint
      and no output, or its data and no text. */
  lemma NodeLeaves(f: Behavior, n: PlanNode, outputs: map<Id, Data>)
    ensures var r := ExecuteNode(f, n, outputs);
            && r.id == n.id && r.input == Gather(outputs, n.dependencies)
            && (forall e :: Complains(f(n.id, r.input), e) ==> r.failed && r.output == None && r.error == e)
            && ((forall e :: !Complains(f(n.id, r.input), e)) ==>
                  f(n.id, r.input) == Returned(r.output, None) && !r.failed && r.error == "")
  {
    var o := f(n.id, Gather(outputs, n.dependencies));
    if o.Failed? {
      assert Complains(o, o.reason);
    } else if o.error.Some? {
      assert Complains(o, o.error.value);
    }
  }

  lemma NodeErrs(f: Behavior, stage: seq<PlanNode>, outputs: map<Id, Data>, j: nat)
    requires j < |stage| && ExecuteNode(f, stage[j], outputs).error != ""
    ensures ErrorOf(f, stage, outputs, ExecuteNode(f, stage[j], outputs).error)
  {
    NodeLeaves(f, stage[j], outputs);
  }

  lemma NoneErrs(f: Behavior, stage: seq<PlanNode>, outputs: map<Id, Data>)
    requires forall j :: 0 <= j < |stage| ==> ExecuteNode(f, stage[j], outputs).error == ""
    ensures !StageFails(f, stage, outputs)
  {
    forall e ensures !ErrorOf(f, stage, outputs, e) {
      forall j | 0 <= j < |stage| && Complains(f(stage[j].id, Gather(outputs, stage[j].dependencies)), e) ensures e == "" {
        NodeLeaves(f, stage[j], outputs);
      }
    }
  }

  ghost predicate FailsAt(f: Behavior, stages: seq<seq<PlanNode>>, start: Run, i: nat)
    requires i < |stages|
  {
    StageFails(f, stages[i], RunStages(f, stages[..i], start).outputs)
  }

  /** None of the first `n` stages fails. */
  ghost predicate NoFailureBefore(f: Behavior, stages: seq<seq<PlanNode>>, start: Run, n: nat)
    requires n <= |stages|
  {
    forall i :: 0 <= i < n ==> !FailsAt(f, stages, start, i)
  }

  predicate DistinctNodes(stage: seq<PlanNode>) {
    forall i, j :: 0 <= i < j < |stage| ==> stage[i].id != stage[j].id
  }

  function StartOf(triggerId: Id, triggerData: Option<Data>): Run {
    Run(map[], if triggerData.Some? then map[triggerId := triggerData.value] else map[])
  }

  // ---- The order in which a stage's goroutines finish does not matter ----

  /** Distinct results recorded in any order leave the same entries. */
  lemma {:induction false} CollectEntries(run: Run, arrived: seq<NodeResult>)
    requires forall i, j :: 0 <= i < j < |arrived| ==> arrived[i].id != arrived[j].id
    ensures var c := Collect(run, arrived);
            && (forall i :: 0 <= i < |arrived| ==> EntryIs(run, c, arrived[i]))
            && (forall x :: (forall i :: 0 <= i < |arrived| ==> arrived[i].id != x) ==> SameEntry(run, c, x))
  {
    if arrived != [] {
      var front, last := arrived[..|arrived| - 1], arrived[|arrived| - 1];
      CollectEntries(run, front);
      var b, c := Collect(run, front), Collect(run, arrived);
      forall i | 0 <= i < |arrived| ensures EntryIs(run, c, arrived[i]) {
        if i < |front| {
          assert EntryIs(run, b, front[i]);
        } else {
          assert SameEntry(run, b, last.id);
        }
      }
      forall x | forall i :: 0 <= i < |arrived| ==> arrived[i].id != x ensures SameEntry(run, c, x) {
        assert forall i :: 0 <= i < |front| ==> front[i] == arrived[i];
        assert SameEntry(run, b, x);
      }
    }
  }

  ghost predicate EntryIs(before: Run, after: Run, r: NodeResult) {
    && r.id in after.results && after.results[r.id] == r
    && (if r.output.Some? then r.id in after.outputs && after.outputs[r.id] == r.output.value
        else SameOutput(before, after, r.id))
  }

  ghost predicate SameOutput(a: Run, b: Run, x: Id) {
    (x in a.outputs <==> x in b.outputs) && (x in a.outputs ==> a.outputs[x] == b.outputs[x])
  }

  ghost predicate SameEntry(a: Run, b: Run, x: Id) {
    && SameOutput(a, b, x)
    && (x in a.results <==> x in b.results) && (x in a.results ==> a.results[x] == b.results[x])
  }

  /** Every scheduler leaves the same entry for a node of the stage. */
  lemma StageEntry(f: Behavior, stage: seq<PlanNode>, run: Run, order: seq<nat>, j: nat)
    requires IsOrder(order, |stage|) && DistinctNodes(stage) && j < |stage|
    ensures EntryIs(run, Collect(run, Arrivals(f, stage, run.outputs, order)), ExecuteNode(f, stage[j], run.outputs))
  {
    var arrived := Arrivals(f, stage, run.outputs, order);
    assert forall i :: 0 <= i < |order| ==> arrived[i].id == stage[order[i]].id;
    CollectEntries(run, arrived);
    assert Occurs(order, j);
    var i :| 0 <= i < |order| && order[i] == j;
    assert arrived[i] == ExecuteNode(f, stage[j], run.outputs);
  }

  /** Every scheduler leaves alone what is not in the stage. */
  lemma OtherEntry(f: Behavior, stage: seq<PlanNode>, run: Run, order: seq<nat>, x: Id)
    requires IsOrder(order, |stage|) && DistinctNodes(stage)
    requires forall j :: 0 <= j < |stage| ==> stage[j].id != x
    ensures SameEntry(run, Collect(run, Arrivals(f, stage, run.outputs, order)), x)
  {
    var arrived := Arrivals(f, stage, run.outputs, order);
    assert forall i :: 0 <= i < |order| ==> arrived[i].id == stage[order[i]].id;
    CollectEntries(run, arrived);
  }

  lemma SameResult(run: Run, a: Run, b: Run, r: NodeResult)
    requires EntryIs(run, a, r) && EntryIs(run, b, r)
    ensures SameEntry(a, b, r.id)
  {
  }

  lemma BothUntouched(run: Run, a: Run, b: Run, x: Id)
    requires SameEntry(run, a, x) && SameEntry(run, b, x)
    ensures SameEntry(a, b, x)
  {
  }

  lemma SameNodeAnyOrder(f: Behavior, stage: seq<PlanNode>, run: Run, a: seq<nat>, b: seq<nat>, j: nat)
    requires IsOrder(a, |stage|) && IsOrder(b, |stage|) && DistinctNodes(stage) && j < |stage|
    ensures SameEntry(Collect(run, Arrivals(f, stage, run.outputs, a)), Collect(run, Arrivals(f, stage, run.outputs, b)), stage[j].id)
  {
    StageEntry(f, stage, run, a, j);
    StageEntry(f, stage, run, b, j);
    SameResult(run, Collect(run, Arrivals(f, stage, run.outputs, a)), Collect(run, Arrivals(f, stage, run.outputs, b)),
               ExecuteNode(f, stage[j], run.outputs));
  }

  lemma OthersAnyOrder(f: Behavior, stage: seq<PlanNode>, run: Run, a: seq<nat>, b: seq<nat>, x: Id)
    requires IsOrder(a, |stage|) && IsOrder(b, |stage|) && DistinctNodes(stage)
    requires forall j :: 0 <= j < |stage| ==> stage[j].id != x
    ensures SameEntry(Collect(run, Arrivals(f, stage, run.outputs, a)), Collect(run, Arrivals(f, stage, run.outputs, b)), x)
  {
    OtherEntry(f, stage, run, a, x);
    OtherEntry(f, stage, run, b, x);
    BothUntouched(run, Collect(run, Arrivals(f, stage, run.outputs, a)), Collect(run, Arrivals(f, stage, run.outputs, b)), x);
  }

  lemma SameEntryAnyOrder(f: Behavior, stage: seq<PlanNode>, run: Run, a: seq<nat>, b: seq<nat>, x: Id)
    requires IsOrder(a, |stage|) && IsOrder(b, |stage|) && DistinctNodes(stage)
    ensures SameEntry(Collect(run, Arrivals(f, stage, run.outputs, a)), Collect(run, Arrivals(f, stage, run.outputs, b)), x)
  {
    if j :| 0 <= j < |stage| && stage[j].id == x {
      SameNodeAnyOrder(f, stage, run, a, b, j);
    } else {
      OthersAnyOrder(f, stage, run, a, b, x);
    }
  }

  /** Every finishing order of a stage leaves the same results and the same outputs. */
  lemma ScheduleIrrelevant(f: Behavior, stage: seq<PlanNode>, run: Run, order: seq<nat>)
    requires IsOrder(order, |stage|) && DistinctNodes(stage)
    ensures Collect(run, Arrivals(f, stage, run.outputs, order)) == StageStep(f, stage, run)
  {
    var a, b := Collect(run, Arrivals(f, stage, run.outputs, order)), StageStep(f, stage, run);
    forall x ensures SameEntry(a, b, x) {
      SameEntryAnyOrder(f, stage, run, order, InOrder(|stage|), x);
    }
    SameRuns(a, b);
  }

  lemma SameRuns(a: Run, b: Run)
    requires forall x :: SameEntry(a, b, x)
    ensures a == b
  {
    assert forall x :: x in a.outputs || x in b.outputs ==> SameEntry(a, b, x);
    assert forall x :: x in a.results || x in b.results ==> SameEntry(a, b, x);
    assert a.outputs == b.outputs;
    assert a.results == b.results;
  }

  // ---- The code ----

  /** executeNode: merges the dependencies' outputs and runs the node. */
  method ExecuteNodeOn(f: Behavior, n: PlanNode, outputs: map<Id, Data>) returns (r: NodeResult)
    ensures r == ExecuteNode(f, n, outputs)
    ensures forall k :: k in r.input <==> k != "_output" && k != "_loopState" && exists i :: Supplies(outputs, n.dependencies, k, i)
    ensures forall k :: k in r.input ==>
              exists i :: Supplies(outputs, n.dependencies, k, i) && (forall j :: i < j ==> !Supplies(outputs, n.dependencies, k, j))
                          && r.input[k] == outputs[n.dependencies[i]][k]
    ensures match f(n.id, r.input)
            case Failed(e) => r.failed && r.output == None && r.error == e
            case Returned(_, Some(e)) => r.failed && r.output == None && r.error == e
            case Returned(data, None) => !r.failed && r.output == data && r.error == ""
  {
    var input: Data := map[];
    for i := 0 to |n.dependencies|
      invariant input == Gather(outputs, n.dependencies[..i])
    {
      assert n.dependencies[..i + 1][..i] == n.dependencies[..i];
      if n.dependencies[i] in outputs {
        input := Overlay(input, outputs[n.dependencies[i]]);
      }
    }
    assert n.dependencies[..|n.dependencies|] == n.dependencies;
    forall k {
      GatherHolds(outputs, n.dependencies, k);
    }
    match f(n.id, input) {
      case Failed(e) => r := NodeResult(n.id, input, None, true, e);
      case Returned(_, Some(e)) => r := NodeResult(n.id, input, None, true, e);
      case Returned(data, None) => r := NodeResult(n.id, input, data, false, "");
    }
  }

  /** The goroutines of a stage, in the order in which they finish. */
  method RunNodes(f: Behavior, stage: seq<PlanNode>, outputs: map<Id, Data>, finish: seq<nat>)
    returns (resultChan: seq<NodeResult>, executed: seq<Id>)
    requires IsOrder(finish, |stage|)
    ensures resultChan == Arrivals(f, stage, outputs, finish) && executed == FinishedIds(stage, finish)
  {
    resultChan, executed := [], [];
    for i := 0 to |finish|
      invariant resultChan == Arrivals(f, stage, outputs, finish)[..i]
      invariant executed == FinishedIds(stage, finish)[..i]
    {
      var r := ExecuteNodeOn(f, stage[finish[i]], outputs);
      resultChan, executed := resultChan + [r], executed + [r.id];
    }
  }

  /** What they send to the error channel, in the order `report`. */
  method ReportErrors(f: Behavior, stage: seq<PlanNode>, outputs: map<Id, Data>, report: seq<nat>) returns (errChan: seq<string>)
    requires IsOrder(report, |stage|)
    ensures |errChan| > 0 <==> StageFails(f, stage, outputs)
    ensures forall l :: 0 <= l < |errChan| ==> ErrorOf(f, stage, outputs, errChan[l])
  {
    errChan := [];
    for i := 0 to |report|
      invariant |errChan| == 0 ==> forall j :: 0 <= j < i ==> ExecuteNode(f, stage[report[j]], outputs).error == ""
      invariant forall l :: 0 <= l < |errChan| ==> ErrorOf(f, stage, outputs, errChan[l])
    {
      var r := ExecuteNodeOn(f, stage[report[i]], outputs);
      if r.error != "" {
        NodeErrs(f, stage, outputs, report[i]);
        errChan := errChan + [r.error];
      }
    }
    AllReported(f, stage, outputs, report, errChan);
  }

  /** One stage: all goroutines run on the same outputs and finish in the order `finish`; then the
      results are collected. Errors are reported in the order `report`. */
  method RunStage(f: Behavior, stage: seq<PlanNode>, run: Run, finish: seq<nat>, report: seq<nat>)
    returns (after: Run, errors: seq<string>, executed: seq<Id>)
    requires DistinctNodes(stage) && IsOrder(finish, |stage|) && IsOrder(report, |stage|)
    ensures after == StageStep(f, stage, run) && executed == FinishedIds(stage, finish)
    ensures |errors| > 0 <==> StageFails(f, stage, run.outputs)
    ensures forall i :: 0 <= i < |errors| ==> ErrorOf(f, stage, run.outputs, errors[i])
  {
    var resultChan;
    resultChan, executed := RunNodes(f, stage, run.outputs, finish);
    errors := ReportErrors(f, stage, run.outputs, report);
    after := run;
    for i := 0 to |resultChan|
      invariant after == Collect(run, resultChan[..i])
    {
      assert resultChan[..i + 1][..i] == resultChan[..i];
      after := Record(after, resultChan[i]);
    }
    assert resultChan[..|resultChan|] == resultChan;
    ScheduleIrrelevant(f, stage, run, finish);
  }

  lemma AllReported(f: Behavior, stage: seq<PlanNode>, outputs: map<Id, Data>, report: seq<nat>, errors: seq<string>)
    requires IsOrder(report, |stage|)
    requires |errors| == 0 ==> forall j :: 0 <= j < |report| ==> ExecuteNode(f, stage[report[j]], outputs).error == ""
    requires forall l :: 0 <= l < |errors| ==> ErrorOf(f, stage, outputs, errors[l])
    ensures |errors| > 0 <==> StageFails(f, stage, outputs)
  {
    if |errors| > 0 {
      assert ErrorOf(f, stage, outputs, errors[0]);
    } else {
      forall j | 0 <= j < |stage| ensures ExecuteNode(f, stage[j], outputs).error == "" {
        assert Occurs(report, j);
      }
      NoneErrs(f, stage, outputs);
    }
  }

  /** A finishing order for every stage. */
  predicate IsSchedule(stages: seq<seq<PlanNode>>, finish: seq<seq<nat>>) {
    |finish| == |stages| && forall i :: 0 <= i < |stages| ==> IsOrder(finish[i], |stages[i]|)
  }

  /** The identifiers in the order in which their nodes finished, over the first `k` stages. */
  function Log(stages: seq<seq<PlanNode>>, finish: seq<seq<nat>>, k: nat): seq<Id>
    requires k <= |stages| && IsSchedule(stages, finish)
  {
    if k == 0 then []
    else Log(stages, finish, k - 1) + FinishedIds(stages[k - 1], finish[k - 1])
  }

  function FinishedIds(stage: seq<PlanNode>, finish: seq<nat>): seq<Id>
    requires IsOrder(finish, |stage|)
  {
    seq(|finish|, j requires 0 <= j < |finish| => stage[finish[j]].id)
  }

  predicate IsOutputNode(stages: seq<seq<PlanNode>>, x: Id) {
    exists i, j :: 0 <= i < |stages| && 0 <= j < |stages[i]| && stages[i][j].id == x && |stages[i][j].outputs| == 0
  }

  /** executePlan. Whatever the schedule, the results, the outputs and the stages that ran are the
      same: in "stop" mode the stages up to and including the first that reports a failure, otherwise all. */
  method ExecutePlan(plan: Plan, f: Behavior, stop: bool, triggerData: Option<Data>, finish: seq<seq<nat>>, report: seq<seq<nat>>)
    returns (run: Run, failure: Option<string>, finals: map<Id, Data>, ran: nat, executed: seq<Id>)
    requires IsSchedule(plan.stages, finish) && IsSchedule(plan.stages, report)
    requires forall i :: 0 <= i < |plan.stages| ==> DistinctNodes(plan.stages[i])
    ensures RanTo(plan, f, stop, triggerData, ran) && executed == Log(plan.stages, finish, ran)
    ensures run == RunStages(f, plan.stages[..ran], StartOf(plan.triggerId, triggerData))
    ensures failure.Some? <==> stop && ran > 0 && FailsAt(f, plan.stages, StartOf(plan.triggerId, triggerData), ran - 1)
    ensures failure.Some? ==> ErrorOf(f, plan.stages[ran - 1],
                                RunStages(f, plan.stages[..ran - 1], StartOf(plan.triggerId, triggerData)).outputs, failure.value)
    ensures failure.None? ==> forall x :: x in finals <==> IsOutputNode(plan.stages, x) && x in run.outputs
    ensures failure.None? ==> forall x :: x in finals ==> finals[x] == run.outputs[x]
  {
    ghost var start := StartOf(plan.triggerId, triggerData);
    run := Run(map[], if triggerData.Some? then map[plan.triggerId := triggerData.value] else map[]);
    finals, ran, executed := map[], 0, [];
    while ran < |plan.stages|
      invariant ran <= |plan.stages| && Underway(plan.stages, f, stop, start, finish, ran, run, executed)
    {
      var errors;
      run, errors, executed := NextStage(plan.stages, f, stop, start, finish, report, ran, run, executed);
      ran := ran + 1;
      if stop && |errors| > 0 {
        return run, Some(errors[0]), map[], ran, executed;
      }
    }
    failure := None;
    finals := FinalOutputs(plan.stages, run.outputs);
  }

  /** One pass of its loop. */
  method NextStage(stages: seq<seq<PlanNode>>, f: Behavior, ghost stop: bool, ghost start: Run, finish: seq<seq<nat>>,
                   report: seq<seq<nat>>, k: nat, before: Run, log: seq<Id>)
    returns (run: Run, errors: seq<string>, executed: seq<Id>)
    requires k < |stages| && IsSchedule(stages, finish) && IsSchedule(stages, report) && DistinctNodes(stages[k])
    requires Underway(stages, f, stop, start, finish, k, before, log)
    ensures run == RunStages(f, stages[..k + 1], start) && executed == Log(stages, finish, k + 1)
    ensures |errors| > 0 <==> FailsAt(f, stages, start, k)
    ensures forall i :: 0 <= i < |errors| ==> ErrorOf(f, stages[k], RunStages(f, stages[..k], start).outputs, errors[i])
    ensures stop ==> NoFailureBefore(f, stages, start, k)
    ensures !(stop && |errors| > 0) ==> Underway(stages, f, stop, start, finish, k + 1, run, executed)
  {
    var finished;
    run, errors, finished := RunStage(f, stages[k], before, finish[k], report[k]);
    OneMoreStage(stages, f, stop, start, finish, k, before, log, |errors| > 0);
    executed := log + finished;
  }

  /** Where executePlan stands after `k` stages that did not stop it. */
  ghost predicate Underway(stages: seq<seq<PlanNode>>, f: Behavior, stop: bool, start: Run, finish: seq<seq<nat>>, k: nat, run: Run, executed: seq<Id>)
    requires k <= |stages| && IsSchedule(stages, finish)
  {
    && run == RunStages(f, stages[..k], start) && executed == Log(stages, finish, k)
    && (stop ==> NoFailureBefore(f, stages, start, k))
  }

  lemma RunsOn(stages: seq<seq<PlanNode>>, f: Behavior, start: Run, k: nat)
    requires k < |stages|
    ensures RunStages(f, stages[..k + 1], start) == StageStep(f, stages[k], RunStages(f, stages[..k], start))
  {
    assert stages[..k + 1][..k] == stages[..k];
  }

  lemma OneMoreStage(stages: seq<seq<PlanNode>>, f: Behavior, stop: bool, start: Run, finish: seq<seq<nat>>, k: nat,
                     run: Run, executed: seq<Id>, failed: bool)
    requires k < |stages| && IsSchedule(stages, finish) && Underway(stages, f, stop, start, finish, k, run, executed)
    requires failed <==> StageFails(f, stages[k], run.outputs)
    ensures IsOrder(finish[k], |stages[k]|)
    ensures StageStep(f, stages[k], run) == RunStages(f, stages[..k + 1], start)
    ensures executed + FinishedIds(stages[k], finish[k]) == Log(stages, finish, k + 1)
    ensures run == RunStages(f, stages[..k], start) && (failed <==> FailsAt(f, stages, start, k))
    ensures stop ==> NoFailureBefore(f, stages, start, k)
    ensures stop && !failed ==> NoFailureBefore(f, stages, start, k + 1)
  {
    RunsOn(stages, f, start, k);
  }

  /** Which stages run: all of them, or up to and including the first failing one in "stop" mode. */
  ghost predicate RanTo(plan: Plan, f: Behavior, stop: bool, triggerData: Option<Data>, ran: nat) {
    var start := StartOf(plan.triggerId, triggerData);
    && ran <= |plan.stages|
    && (stop && ran > 0 ==> NoFailureBefore(f, plan.stages, start, ran - 1))
    && (ran < |plan.stages| ==> stop && ran > 0 && FailsAt(f, plan.stages, start, ran - 1))
  }

  /** The outputs of the nodes with no outgoing connection. */
  method FinalOutputs(stages: seq<seq<PlanNode>>, outputs: map<Id, Data>) returns (finals: map<Id, Data>)
    ensures forall x :: x in finals <==> IsOutputNode(stages, x) && x in outputs
    ensures forall x :: x in finals ==> finals[x] == outputs[x]
  {
    finals := map[];
    for i := 0 to |stages|
      invariant forall x :: x in finals <==> IsOutputNode(stages[..i], x) && x in outputs
      invariant forall x :: x in finals ==> finals[x] == outputs[x]
    {
      var before := finals;
      for j := 0 to |stages[i]|
        invariant forall x :: x in finals <==> x in before || (SinkBefore(stages[i], j, x) && x in outputs)
        invariant forall x :: x in finals ==> finals[x] == outputs[x]
      {
        var n := stages[i][j];
        forall x ensures SinkBefore(stages[i], j + 1, x) <==> SinkBefore(stages[i], j, x) || (n.id == x && |n.outputs| == 0) {
        }
        if |n.outputs| == 0 && n.id in outputs {
          finals := finals[n.id := outputs[n.id]];
        }
      }
      forall x ensures IsOutputNode(stages[..i + 1], x) <==> IsOutputNode(stages[..i], x) || SinkBefore(stages[i], |stages[i]|, x) {
        OutputNodeStep(stages, i, x);
      }
    }
    assert stages[..|stages|] == stages;
  }

  predicate SinkBefore(stage: seq<PlanNode>, k: nat, x: Id)
    requires k <= |stage|
  {
    exists j :: 0 <= j < k && stage[j].id == x && |stage[j].outputs| == 0
  }

  lemma OutputNodeStep(stages: seq<seq<PlanNode>>, i: nat, x: Id)
    requires i < |stages|
    ensures IsOutputNode(stages[..i + 1], x) <==> IsOutputNode(stages[..i], x) || SinkBefore(stages[i], |stages[i]|, x)
  {
    var front: seq<seq<PlanNode>>, more: seq<seq<PlanNode>> := stages[..i], stages[..i + 1];
    if IsOutputNode(front, x) {
      var k, j :| 0 <= k < |front| && 0 <= j < |front[k]| && front[k][j].id == x && |front[k][j].outputs| == 0;
      assert more[k][j].id == x;
    }
    if SinkBefore(stages[i], |stages[i]|, x) {
      var j :| 0 <= j < |stages[i]| && stages[i][j].id == x && |stages[i][j].outputs| == 0;
      assert more[i][j].id == x;
    }
    if IsOutputNode(more, x) {
      var k, j :| 0 <= k < |more| && 0 <= j < |more[k]| && more[k][j].id == x && |more[k][j].outputs| == 0;
      if k < i {
        assert front[k][j].id == x;
      }
    }
  }

  /** How far a run gets, and so everything else it leaves, depends on the workflow alone. */
  lemma RanToUnique(plan: Plan, f: Behavior, stop: bool, triggerData: Option<Data>, a: nat, b: nat)
    requires RanTo(plan, f, stop, triggerData, a) && RanTo(plan, f, stop, triggerData, b)
    ensures a == b
  {
  }
}
