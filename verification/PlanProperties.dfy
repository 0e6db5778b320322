/** What a successful plan says about the graph: stages are longest-path depths, so no
    staging that respects the connections is shorter. */
module PlanProperties {
  import opened Reachability
  import opened Workflow
  import opened Planner

  lemma {:induction false} PathLevels(e: Edges, t: Id, level: map<Id, nat>, p: seq<Id>)
    requires Levels(e, t, level) && IsPath(e, p) && p[|p| - 1] in level
    ensures p[0] in level && level[p[0]] + |p| - 1 <= level[p[|p| - 1]]
    decreases |p|
  {
    if |p| > 1 {
      assert (p[|p| - 2], p[|p| - 1]) in e;
      PathLevels(e, t, level, p[..|p| - 1]);
    }
  }

  lemma {:induction false} PathOfLevelLength(e: Edges, t: Id, level: map<Id, nat>, n: Id) returns (p: seq<Id>)
    requires Levels(e, t, level) && n in level
    ensures PathBetween(e, t, n, p) && |p| - 1 == level[n]
    decreases level[n]
  {
    if n == t {
      p := [t];
    } else {
      assert Tight(e, level, n);
      var a :| (a, n) in e && a in level && level[a] == level[n] - 1;
      p := PathOfLevelLength(e, t, level, a);
      p := p + [n];
    }
  }

  /** A node's stage is the length of the longest path from the trigger to it. */
  lemma StageIsLongestPath(w: Definition, plan: Plan, level: map<Id, nat>, n: Id)
    requires ValidPlan(w, plan, level) && n in level
    ensures exists p :: PathBetween(EdgesOf(w.connections), plan.triggerId, n, p) && |p| - 1 == level[n]
    ensures forall p :: PathBetween(EdgesOf(w.connections), plan.triggerId, n, p) ==> |p| - 1 <= level[n]
  {
    var e, t := EdgesOf(w.connections), plan.triggerId;
    var q := PathOfLevelLength(e, t, level, n);
    forall p | PathBetween(e, t, n, p) ensures |p| - 1 <= level[n] {
      PathLevels(e, t, level, p);
    }
  }

  /** Any assignment of stages that sends every connection forward needs at least as many
      stages, node by node and overall. */
  lemma NoShorterStaging(w: Definition, plan: Plan, level: map<Id, nat>, other: map<Id, nat>, stages: nat)
    requires ValidPlan(w, plan, level)
    requires other.Keys == NodeIds(w) && forall n :: n in other ==> other[n] < stages
    requires forall a, b :: (a, b) in InnerEdges(w) ==> other[a] < other[b]
    ensures forall n :: n in level ==> level[n] <= other[n]
    ensures |plan.stages| <= stages
  {
    var e, t := EdgesOf(w.connections), plan.triggerId;
    forall n | n in level ensures level[n] <= other[n] {
      var p := PathOfLevelLength(e, t, level, n);
      PathStaysInside(w, t, level, p);
      RankAlongPath(InnerEdges(w), other, p);
    }
    var last := plan.stages[|plan.stages| - 1];
    assert last[0].id in level && level[last[0].id] == |plan.stages| - 1;
  }

  /** A path that ends in a levelled node runs through nodes only. */
  lemma {:induction false} PathStaysInside(w: Definition, t: Id, level: map<Id, nat>, p: seq<Id>)
    requires Levels(EdgesOf(w.connections), t, level) && level.Keys == NodeIds(w)
    requires IsPath(EdgesOf(w.connections), p) && p[|p| - 1] in level
    ensures IsPath(InnerEdges(w), p) && p[0] in level
    decreases |p|
  {
    if |p| > 1 {
      assert (p[|p| - 2], p[|p| - 1]) in EdgesOf(w.connections);
      PathStaysInside(w, t, level, p[..|p| - 1]);
      forall i | 0 <= i < |p| - 1 ensures (p[i], p[i + 1]) in InnerEdges(w) {
        if i < |p| - 2 {
          var q := p[..|p| - 1];
          assert (q[i], q[i + 1]) in InnerEdges(w);
        }
      }
    }
  }
}
