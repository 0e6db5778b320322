/** SortedExecution (internal/engine/executor.go): Kahn's algorithm node by node, followed by a
    stable sort of the whole list by name. */
module TopologicalSort {
  import opened Reachability
  import opened Workflow
  import opened Planner

  datatype SortResult = Sorted(order: seq<Id>, nodes: seq<Node>) | Cycles

  function Members(s: seq<Id>): set<Id> {
    set x | x in s
  }

  /** The identifiers the in-degree table knows: the nodes and the targets of connections. */
  function Known(w: Definition): set<Id> {
    NodeIds(w) + set x | x in EdgesOf(w.connections) :: x.1
  }

  /** Every source of an element stands before it. */
  ghost predicate Topological(e: Edges, order: seq<Id>) {
    forall a, q :: 0 <= q < |order| && (a, order[q]) in e ==> a in order[..q]
  }

  /** What holds between two steps: the list so far is in order, and what is listed or queued is
      exactly what has no unserved source. */
  ghost predicate Kahn(w: Definition, order: seq<Id>, queue: seq<Id>, remaining: map<Id, int>) {
    && Once(order + queue)
    && CountsRight(w.connections, Members(order), remaining)
    && (forall x :: x in order + queue <==> x in Known(w) && Pending(w.connections, x, Members(order)) == 0)
    && Topological(EdgesOf(w.connections), order)
  }

  lemma OnceAppend(a: seq<Id>, b: seq<Id>)
    requires Once(a) && Once(b) && forall x :: x in b ==> x !in a
    ensures Once(a + b)
  {
    var c := a + b;
    forall i, j | 0 <= i < j < |c| ensures c[i] != c[j] {
      if i < |a| <= j {
        assert c[i] in a && c[j] == b[j - |a|];
      }
    }
  }

  lemma OnceHead(a: seq<Id>, b: seq<Id>)
    requires Once(a + b) && |b| > 0
    ensures b[0] !in a && Members(a + [b[0]]) == Members(a) + {b[0]}
  {
    var c := a + b;
    assert c[|a|] == b[0];
    forall i | 0 <= i < |a| ensures a[i] != b[0] {
      assert c[i] == a[i];
    }
  }

  lemma KahnStep(w: Definition, order: seq<Id>, queue: seq<Id>, before: map<Id, int>, remaining: map<Id, int>, next: seq<Id>)
    requires Kahn(w, order, queue, before) && |queue| > 0
    requires var outs, rest := Outgoing(w.connections, queue[0]), queue[1..];
             && (forall x :: CountAt(remaining, x) == CountAt(before, x) - multiset(outs)[x])
             && (forall x :: x in next <==> x in rest || 1 <= CountAt(before, x) <= multiset(outs)[x])
             && |rest| <= |next| && next[..|rest|] == rest
             && (forall i :: |rest| <= i < |next| ==> 1 <= CountAt(before, next[i]) <= multiset(outs)[next[i]])
             && (forall i, j :: |rest| <= i < j < |next| ==> next[i] != next[j])
    ensures Kahn(w, order + [queue[0]], next, remaining)
  {
    var x, rest, order' := queue[0], queue[1..], order + [queue[0]];
    var e, done := EdgesOf(w.connections), Members(order);
    OnceHead(order, queue);
    assert order' + rest == order + queue;
    forall y ensures Pending(w.connections, y, done + {x}) == Pending(w.connections, y, done) - multiset(Outgoing(w.connections, x))[y] {
      assert x !in done;
      PendingDrop(w.connections, y, done, x);
    }
    forall y ensures y in order' + next <==> y in Known(w) && Pending(w.connections, y, Members(order')) == 0 {
      assert y in order' + next <==> y in order + queue || 1 <= CountAt(before, y) <= multiset(Outgoing(w.connections, x))[y];
      if y in Outgoing(w.connections, x) {
        OutgoingMembers(w.connections, x, y);
        assert y == (x, y).1;
      }
    }
    NextOnce(w, order, queue, before, next);
    TopologicalStep(w, order, x);
  }

  lemma NextOnce(w: Definition, order: seq<Id>, queue: seq<Id>, before: map<Id, int>, next: seq<Id>)
    requires Kahn(w, order, queue, before) && |queue| > 0
    requires |queue| - 1 <= |next| && next[..|queue| - 1] == queue[1..]
    requires forall i :: |queue| - 1 <= i < |next| ==> 1 <= CountAt(before, next[i])
    requires forall i, j :: |queue| - 1 <= i < j < |next| ==> next[i] != next[j]
    ensures Once(order + [queue[0]] + next)
  {
    var added := next[|queue| - 1..];
    assert order + [queue[0]] + next == (order + queue) + added;
    forall y | y in added ensures y !in order + queue {
      assert CountAt(before, y) == Pending(w.connections, y, Members(order));
    }
    OnceAppend(order + queue, added);
  }

  lemma TopologicalStep(w: Definition, order: seq<Id>, x: Id)
    requires Topological(EdgesOf(w.connections), order)
    requires Pending(w.connections, x, Members(order)) == 0
    ensures Topological(EdgesOf(w.connections), order + [x])
  {
    var longer := order + [x];
    PendingZero(w.connections, x, Members(order));
    forall a, q | 0 <= q < |longer| && (a, longer[q]) in EdgesOf(w.connections) ensures a in longer[..q] {
      if q < |order| {
        assert a in order[..q] && longer[..q] == order[..q];
      } else {
        assert longer[..q] == order;
      }
    }
  }

  /** The work list: `initial` are the zero-degree identifiers in the order the map yields them. */
  method KahnOrder(w: Definition, initial: seq<Id>) returns (order: seq<Id>)
    requires Once(initial) && forall x :: x in initial <==> x in NodeIds(w) && InDegree(w.connections, x) == 0
    ensures Once(order) && Topological(EdgesOf(w.connections), order)
    ensures forall x :: x in order <==> x in Known(w) && forall y :: (y, x) in EdgesOf(w.connections) ==> y in order
  {
    var outputs, _, remaining := BuildAdjacency(w);
    var queue := initial;
    order := [];
    assert Members(order) == {};
    forall x ensures x in order + queue <==> x in Known(w) && Pending(w.connections, x, {}) == 0 {
      PendingZero(w.connections, x, {});
    }
    assert order + queue == queue;
    while queue != []
      invariant Kahn(w, order, queue, remaining)
      decreases Known(w) - Members(order)
    {
      var x := queue[0];
      assert x in order + queue && (order + queue)[|order|] == x;
      OnceHead(order, queue);
      var r, next := Relax(ListAt(outputs, x), remaining, queue[1..]);
      KahnStep(w, order, queue, remaining, r, next);
      order, queue, remaining := order + [x], next, r;
    }
    assert order + queue == order;
    forall x ensures x in order <==> x in Known(w) && forall y :: (y, x) in EdgesOf(w.connections) ==> y in order {
      PendingZero(w.connections, x, Members(order));
    }
  }

  // ---- When the sort succeeds ----

  /** What KahnOrder delivers: an identifier is listed exactly when all its sources are. */
  ghost predicate IsKahnOrder(w: Definition, order: seq<Id>) {
    && Once(order) && Topological(EdgesOf(w.connections), order)
    && (forall x :: x in order <==> x in Known(w) && SourcesIn(EdgesOf(w.connections), x, order))
  }

  ghost predicate SourcesIn(e: Edges, x: Id, order: seq<Id>) {
    forall y :: (y, x) in e ==> y in order
  }

  lemma {:induction false} OnceSize(s: seq<Id>)
    requires Once(s)
    ensures |Members(s)| == |s|
  {
    if s != [] {
      var front, last := s[..|s| - 1], s[|s| - 1];
      OnceSize(front);
      assert s == front + [last];
      OnceHead(front, [last]);
    }
  }

  function IndexOf(s: seq<Id>, x: Id): (i: nat)
    requires x in s
    ensures i < |s| && s[i] == x
  {
    if s[0] == x then 0 else 1 + IndexOf(s[1..], x)
  }

  lemma TopologicalIsAcyclic(e: Edges, order: seq<Id>)
    requires Once(order) && Topological(e, order) && forall a, b :: (a, b) in e ==> b in order
    ensures Acyclic(e)
  {
    var rank := map x | x in order :: IndexOf(order, x);
    forall a, b | (a, b) in e ensures a in rank && b in rank && rank[a] < rank[b] {
      assert (a, order[IndexOf(order, b)]) in e;
      assert a in order[..IndexOf(order, b)];
      var i :| 0 <= i < IndexOf(order, b) && order[i] == a;
    }
    RankedIsAcyclic(e, rank);
  }

  lemma KnownWhenClosed(w: Definition)
    requires Closed(w)
    ensures Known(w) == NodeIds(w)
    ensures forall a, b :: (a, b) in EdgesOf(w.connections) ==> a in NodeIds(w) && b in NodeIds(w)
  {
  }

  lemma FullLengthMeans(w: Definition, e: Edges, order: seq<Id>)
    requires IsKahnOrder(w, order) && e == EdgesOf(w.connections) && Known(w) == NodeIds(w)
    requires forall a, b :: (a, b) in e ==> b in NodeIds(w)
    requires |order| == |w.nodes|
    ensures Members(order) == NodeIds(w) && DistinctIds(w) && Acyclic(e)
  {
    OnceSize(order);
    IdsAtMost(w.nodes);
    assert Members(order) <= NodeIds(w);
    if Members(order) != NodeIds(w) {
      SmallerSet(Members(order), NodeIds(w));
    }
    if i, j :| 0 <= i < j < |w.nodes| && w.nodes[i].id == w.nodes[j].id {
      IdsClash(w.nodes, i, j);
    }
    forall a, b | (a, b) in e ensures b in order {
      assert b in Members(order);
    }
    TopologicalIsAcyclic(e, order);
  }

  lemma AcyclicGivesFullLength(w: Definition, e: Edges, order: seq<Id>)
    requires IsKahnOrder(w, order) && e == EdgesOf(w.connections) && Known(w) == NodeIds(w)
    requires forall a, b :: (a, b) in e ==> a in NodeIds(w)
    requires DistinctIds(w) && Acyclic(e)
    ensures |order| == |w.nodes|
  {
    OnceSize(order);
    IdsDistinct(w.nodes);
    assert Members(order) <= NodeIds(w);
    var rest := NodeIds(w) - Members(order);
    if u :| u in rest {
      var m := MinimalMember(e, rest, u);
      assert SourcesIn(e, m, order);
      assert false;
    }
    assert rest == {};
    assert NodeIds(w) == Members(order) + rest;
  }

  ghost predicate OnCycle(e: Edges, a: Id) {
    exists b :: (a, b) in e && Reach(e, b, a)
  }

  /** No ancestor of `x`, nor `x` itself, is unknown or on a cycle. */
  ghost predicate Unblocked(w: Definition, x: Id) {
    forall a :: Reach(EdgesOf(w.connections), a, x) ==> a in Known(w) && !OnCycle(EdgesOf(w.connections), a)
  }

  ghost function Free(w: Definition): set<Id> {
    set x | x in Known(w) && Unblocked(w, x)
  }

  lemma {:induction false} AncestorsListed(w: Definition, order: seq<Id>, p: seq<Id>)
    requires IsKahnOrder(w, order) && IsPath(EdgesOf(w.connections), p) && p[|p| - 1] in order
    ensures forall i :: 0 <= i < |p| ==> p[i] in order
    decreases |p|
  {
    if |p| > 1 {
      var front := p[..|p| - 1];
      assert (front[|p| - 2], p[|p| - 1]) in EdgesOf(w.connections);
      assert SourcesIn(EdgesOf(w.connections), p[|p| - 1], order);
      AncestorsListed(w, order, front);
      forall i | 0 <= i < |p| ensures p[i] in order {
        assert i < |p| - 1 ==> p[i] == front[i];
      }
    }
  }

  /** The edges into a set of identifiers. */
  function Into(e: Edges, s: set<Id>): Edges {
    set x | x in e && x.1 in s
  }

  /** A cycle through identifiers of a set shows among the edges into it. */
  lemma CycleInto(e: Edges, s: set<Id>, a: Id, b: Id, p: seq<Id>)
    requires (a, b) in e && PathBetween(e, b, a, p) && forall i :: 0 <= i < |p| ==> p[i] in s
    ensures !Acyclic(Into(e, s))
  {
    var q := [a] + p;
    forall i | 0 <= i < |q| - 1 ensures (q[i], q[i + 1]) in Into(e, s) {
      if i > 0 {
        assert (p[i - 1], p[i]) in e;
      }
    }
    assert PathBetween(Into(e, s), a, a, q);
  }

  lemma ListedIsFree(w: Definition, order: seq<Id>, x: Id)
    requires IsKahnOrder(w, order) && x in order
    ensures x in Free(w)
  {
    var e := EdgesOf(w.connections);
    forall a | Reach(e, a, x) ensures a in Known(w) && !OnCycle(e, a) {
      var p :| PathBetween(e, a, x, p);
      AncestorsListed(w, order, p);
      assert p[0] in order;
      if b :| (a, b) in e && Reach(e, b, a) {
        var q :| PathBetween(e, b, a, q);
        AncestorsListed(w, order, q);
        CycleInto(e, Members(order), a, b, q);
        TopologicalInto(e, order);
      }
    }
  }

  lemma TopologicalInto(e: Edges, order: seq<Id>)
    requires Once(order) && Topological(e, order)
    ensures Acyclic(Into(e, Members(order)))
  {
    TopologicalIsAcyclic(Into(e, Members(order)), order);
  }

  /** The sources of a free identifier are free. */
  lemma SourceIsFree(w: Definition, y: Id, x: Id)
    requires (y, x) in EdgesOf(w.connections) && x in Free(w)
    ensures y in Free(w)
  {
    var e := EdgesOf(w.connections);
    ReachSelf(e, x);
    ReachCons(e, y, x, x);
    forall a | Reach(e, a, y) ensures a in Known(w) && !OnCycle(e, a) {
      ReachSnoc(e, a, y, x);
    }
  }

  lemma FreeIsAcyclic(w: Definition)
    ensures Acyclic(Into(EdgesOf(w.connections), Free(w)))
  {
    var e, f := EdgesOf(w.connections), Into(EdgesOf(w.connections), Free(w));
    forall a, p | PathBetween(f, a, a, p) ensures |p| == 1 {
      if |p| > 1 {
        assert (p[0], p[1]) in f && (p[|p| - 2], p[|p| - 1]) in f;
        assert PathBetween(e, p[1], a, p[1..]);
        assert OnCycle(e, a);
        ReachSelf(e, a);
      }
    }
  }

  /** Kahn's list holds exactly the free identifiers. */
  lemma ListsFree(w: Definition, order: seq<Id>)
    requires IsKahnOrder(w, order)
    ensures Members(order) == Free(w) && |order| == |Free(w)|
  {
    forall x | x in Members(order) ensures x in Free(w) {
      ListedIsFree(w, order, x);
    }
    var e, rest := EdgesOf(w.connections), Free(w) - Members(order);
    if u :| u in rest {
      FreeIsAcyclic(w);
      var m := MinimalMember(Into(e, Free(w)), rest, u);
      forall y | (y, m) in e ensures y in order {
        SourceIsFree(w, y, m);
        assert (y, m) in Into(e, Free(w));
        assert y in Members(order);
      }
      assert SourcesIn(e, m, order);
      assert false;
    }
    assert rest == {};
    forall x | x in Free(w) ensures x in Members(order) {
      assert x !in rest;
    }
    OnceSize(order);
  }

  lemma SplitSize(s: set<Id>, t: set<Id>)
    ensures |s| == |s * t| + |s - t|
  {
    assert s == s * t + (s - t);
  }

  /** What the length test tells, on any workflow: it passes exactly when the free targets that are not
      nodes make up for the duplicate identifiers and the nodes that are not free. */
  lemma LengthTestTells(w: Definition, order: seq<Id>)
    requires IsKahnOrder(w, order)
    ensures Members(order) == Free(w)
    ensures |order| == |w.nodes| <==> |Free(w)| == |w.nodes|
    ensures |order| == |w.nodes| <==> |Free(w) - NodeIds(w)| == |w.nodes| - |NodeIds(w)| + |NodeIds(w) - Free(w)|
  {
    ListsFree(w, order);
    SplitSize(Free(w), NodeIds(w));
    SplitSize(NodeIds(w), Free(w));
    assert Free(w) * NodeIds(w) == NodeIds(w) * Free(w);
  }

  lemma AcyclicIsFree(w: Definition)
    requires Acyclic(EdgesOf(w.connections))
    requires forall a, b :: (a, b) in EdgesOf(w.connections) ==> a in NodeIds(w)
    ensures Free(w) == Known(w)
  {
    var e := EdgesOf(w.connections);
    AcyclicByEdges(e);
    forall x | x in Known(w) ensures Unblocked(w, x) {
      forall a | Reach(e, a, x) ensures a in Known(w) && !OnCycle(e, a) {
        if a != x {
          var b := FirstStep(e, a, x);
        }
      }
    }
  }

  /** A workflow with distinct nodes, no cycle and only nodes as sources passes exactly when it is
      closed: a connection to an unknown target is reported as a cycle. */
  lemma UnknownTargetReported(w: Definition, order: seq<Id>)
    requires IsKahnOrder(w, order) && DistinctIds(w) && Acyclic(EdgesOf(w.connections))
    requires forall a, b :: (a, b) in EdgesOf(w.connections) ==> a in NodeIds(w)
    ensures |order| == |w.nodes| <==> Closed(w)
  {
    ListsFree(w, order);
    AcyclicIsFree(w);
    IdsDistinct(w.nodes);
    SplitSize(Known(w), NodeIds(w));
    assert Known(w) * NodeIds(w) == NodeIds(w);
    if Known(w) - NodeIds(w) == {} {
      TargetsAreKnown(w);
    }
    if Closed(w) {
      KnownWhenClosed(w);
      assert Known(w) - NodeIds(w) == {};
    }
  }

  lemma TargetsAreKnown(w: Definition)
    requires Known(w) - NodeIds(w) == {}
    requires forall a, b :: (a, b) in EdgesOf(w.connections) ==> a in NodeIds(w)
    ensures Closed(w)
  {
    forall c | c in w.connections ensures c.source in NodeIds(w) && c.target in NodeIds(w) {
      assert (c.source, c.target) in EdgesOf(w.connections);
      assert (c.source, c.target).1 in Known(w);
      assert c.target !in Known(w) - NodeIds(w);
    }
  }

  /** On a closed workflow the length test succeeds exactly when identifiers are distinct and
      there is no cycle; then every node is listed. */
  lemma LengthTestMeans(w: Definition, order: seq<Id>)
    requires Closed(w) && IsKahnOrder(w, order)
    ensures |order| == |w.nodes| <==> DistinctIds(w) && Acyclic(EdgesOf(w.connections))
    ensures |order| == |w.nodes| ==> Members(order) == NodeIds(w)
  {
    KnownWhenClosed(w);
    if |order| == |w.nodes| {
      FullLengthMeans(w, EdgesOf(w.connections), order);
    } else if DistinctIds(w) && Acyclic(EdgesOf(w.connections)) {
      AcyclicGivesFullLength(w, EdgesOf(w.connections), order);
    }
  }

  // ---- The final sort by name ----

  /** Lexicographic comparison of names. */
  predicate Less(a: string, b: string) {
    if b == "" then false
    else if a == "" then true
    else a[0] < b[0] || (a[0] == b[0] && Less(a[1..], b[1..]))
  }

  /** Less is the order of a dictionary: at the first difference the smaller character comes first, and a
      prefix before what it begins. */
  lemma {:induction false} LessMeans(a: string, b: string)
    ensures Less(a, b) <==> exists k :: 0 <= k < |b| && k <= |a| && a[..k] == b[..k] && (k == |a| || a[k] < b[k])
  {
    if Less(a, b) {
      if a == "" {
        assert a[..0] == b[..0];
      } else if a[0] < b[0] {
        assert a[..0] == b[..0];
      } else {
        LessMeans(a[1..], b[1..]);
        var k :| 0 <= k < |b[1..]| && k <= |a[1..]| && a[1..][..k] == b[1..][..k] && (k == |a[1..]| || a[1..][k] < b[1..][k]);
        assert a[..k + 1] == [a[0]] + a[1..][..k] && b[..k + 1] == [b[0]] + b[1..][..k];
      }
    }
    if k :| 0 <= k < |b| && k <= |a| && a[..k] == b[..k] && (k == |a| || a[k] < b[k]) {
      if k > 0 {
        assert a[0] == a[..k][0] == b[..k][0] == b[0];
        assert a[1..][..k - 1] == a[..k][1..] == b[..k][1..] == b[1..][..k - 1];
        LessMeans(a[1..], b[1..]);
      }
    }
  }

  lemma {:induction false} LessAsymmetric(a: string, b: string)
    requires Less(a, b)
    ensures !Less(b, a)
  {
    if a != "" && a[0] == b[0] {
      LessAsymmetric(a[1..], b[1..]);
    }
  }

  lemma {:induction false} NotLessTransitive(a: string, b: string, c: string)
    requires !Less(b, a) && !Less(c, b)
    ensures !Less(c, a)
  {
    if a != "" && b != "" && c != "" && a[0] == b[0] == c[0] {
      NotLessTransitive(a[1..], b[1..], c[1..]);
    }
  }

  function Insert(n: Node, s: seq<Node>): seq<Node> {
    if s != [] && Less(n.name, s[|s| - 1].name) then Insert(n, s[..|s| - 1]) + [s[|s| - 1]]
    else s + [n]
  }

  /** A stable sort by name. */
  function StableByName(s: seq<Node>): seq<Node> {
    if s == [] then [] else Insert(s[|s| - 1], StableByName(s[..|s| - 1]))
  }

  predicate ByName(s: seq<Node>) {
    forall i, j :: 0 <= i < j < |s| ==> !Less(s[j].name, s[i].name)
  }

  /** Where a node is inserted: after everything it is not less than, before the rest. */
  lemma {:induction false} InsertPlace(n: Node, s: seq<Node>) returns (k: nat)
    requires ByName(s)
    ensures k <= |s| && Insert(n, s) == s[..k] + [n] + s[k..]
    ensures forall i :: 0 <= i < k ==> !Less(n.name, s[i].name)
    ensures forall i :: k <= i < |s| ==> Less(n.name, s[i].name)
  {
    if s != [] && Less(n.name, s[|s| - 1].name) {
      k := InsertPlace(n, s[..|s| - 1]);
      assert s[..|s| - 1][k..] + [s[|s| - 1]] == s[k..];
      assert s[..|s| - 1][..k] == s[..k];
    } else {
      k := |s|;
      assert s[..k] + [n] + s[k..] == s + [n];
      if s != [] {
        forall i | 0 <= i < k ensures !Less(n.name, s[i].name) {
          if i < |s| - 1 {
            NotLessTransitive(s[i].name, s[|s| - 1].name, n.name);
          }
        }
      }
    }
  }

  lemma InsertByName(n: Node, s: seq<Node>)
    requires ByName(s)
    ensures ByName(Insert(n, s))
  {
    var k := InsertPlace(n, s);
    var t := Insert(n, s);
    forall i, j | 0 <= i < j < |t| ensures !Less(t[j].name, t[i].name) {
      if i == k {
        LessAsymmetric(n.name, s[j - 1].name);
      }
    }
  }

  lemma {:induction false} StableIsByName(s: seq<Node>)
    ensures ByName(StableByName(s))
  {
    if s != [] {
      StableIsByName(s[..|s| - 1]);
      InsertByName(s[|s| - 1], StableByName(s[..|s| - 1]));
    }
  }

  /** `t` is `s` rearranged: `place[i]` is where the element at position `i` ends up. */
  predicate Places(s: seq<Node>, t: seq<Node>, place: seq<nat>) {
    && |place| == |s| == |t|
    && (forall i :: 0 <= i < |s| ==> place[i] < |t| && t[place[i]] == s[i])
    && (forall i, j :: 0 <= i < j < |s| ==> place[i] != place[j])
  }

  /** Two elements keep their order exactly when the later one's name is not smaller. */
  predicate KeepsUnlessSmaller(s: seq<Node>, place: seq<nat>)
    requires |place| == |s|
  {
    forall i, j :: 0 <= i < j < |s| ==> (place[i] < place[j] <==> !Less(s[j].name, s[i].name))
  }

  /** The places once one more element is put at `k`. */
  function Shifted(place: seq<nat>, k: nat): seq<nat> {
    seq(|place|, i requires 0 <= i < |place| => if place[i] < k then place[i] else place[i] + 1) + [k]
  }

  lemma PutAt(s: seq<Node>, t: seq<Node>, place: seq<nat>, n: Node, k: nat)
    requires Places(s, t, place) && k <= |t|
    ensures Places(s + [n], t[..k] + [n] + t[k..], Shifted(place, k))
  {
    var s', t', place' := s + [n], t[..k] + [n] + t[k..], Shifted(place, k);
    forall i | 0 <= i < |s'| ensures place'[i] < |t'| && t'[place'[i]] == s'[i] {
      if i < |s| {
        assert t[place[i]] == s[i];
      }
    }
  }

  lemma {:induction false} StablePlaces(s: seq<Node>) returns (place: seq<nat>)
    ensures Places(s, StableByName(s), place) && KeepsUnlessSmaller(s, place)
  {
    if s == [] {
      place := [];
    } else {
      var front, last := s[..|s| - 1], s[|s| - 1];
      assert s == front + [last];
      var before := StablePlaces(front);
      StableIsByName(front);
      var k := InsertPlace(last, StableByName(front));
      PutAt(front, StableByName(front), before, last, k);
      place := Shifted(before, k);
      forall i, j | 0 <= i < j < |s| ensures place[i] < place[j] <==> !Less(s[j].name, s[i].name) {
        assert StableByName(front)[before[i]] == front[i] == s[i];
        if j < |front| {
          assert before[i] < before[j] <==> !Less(front[j].name, front[i].name);
        }
      }
    }
  }

  // ---- The whole function ----

  /** The node map: later entries with the same identifier win, a missing one yields the zero node. */
  function NodeOf(nodes: seq<Node>, x: Id): Node {
    if nodes == [] then Node(NO_ID, "", "")
    else if nodes[|nodes| - 1].id == x then nodes[|nodes| - 1]
    else NodeOf(nodes[..|nodes| - 1], x)
  }

  /** The last node with the identifier, or one without a name. */
  lemma {:induction false} NodeOfMeans(nodes: seq<Node>, x: Id) returns (i: int)
    ensures -1 <= i < |nodes| && forall j :: i < j < |nodes| ==> nodes[j].id != x
    ensures if i < 0 then NodeOf(nodes, x).name == "" else nodes[i].id == x && NodeOf(nodes, x) == nodes[i]
  {
    if nodes == [] {
      i := -1;
    } else if nodes[|nodes| - 1].id == x {
      i := |nodes| - 1;
    } else {
      i := NodeOfMeans(nodes[..|nodes| - 1], x);
    }
  }

  function NodesOf(nodes: seq<Node>, order: seq<Id>): seq<Node> {
    seq(|order|, i requires 0 <= i < |order| => NodeOf(nodes, order[i]))
  }

  /** SortedExecution. */
  method SortedExecution(w: Definition, initial: seq<Id>) returns (r: SortResult)
    requires Once(initial) && forall x :: x in initial <==> x in NodeIds(w) && InDegree(w.connections, x) == 0
    ensures r.Sorted? ==> IsKahnOrder(w, r.order) && |r.order| == |w.nodes| && r.nodes == StableByName(NodesOf(w.nodes, r.order))
    ensures r.Sorted? <==> |Free(w)| == |w.nodes|
    ensures r.Sorted? ==> Members(r.order) == Free(w)
    ensures Closed(w) ==> (r.Sorted? <==> DistinctIds(w) && Acyclic(EdgesOf(w.connections)))
    ensures Closed(w) && r.Sorted? ==> Members(r.order) == NodeIds(w)
  {
    var order := KahnOrder(w, initial);
    forall x ensures x in order <==> x in Known(w) && SourcesIn(EdgesOf(w.connections), x, order) {
    }
    LengthTestTells(w, order);
    if Closed(w) { LengthTestMeans(w, order); }
    if |order| != |w.nodes| {
      return Cycles;
    }
    var sorted: seq<Node> := [];
    for i := 0 to |order|
      invariant sorted == NodesOf(w.nodes, order)[..i]
    {
      sorted := sorted + [NodeOf(w.nodes, order[i])];
    }
    assert sorted == NodesOf(w.nodes, order);
    return Sorted(order, StableByName(sorted));
  }

  lemma SourceBefore(w: Definition, order: seq<Id>, c: Connection, q: nat) returns (p: nat)
    requires IsKahnOrder(w, order) && c in w.connections && q < |order| && order[q] == c.target
    ensures p < q && order[p] == c.source
  {
    assert (c.source, order[q]) in EdgesOf(w.connections);
    assert c.source in order[..q];
    p :| 0 <= p < q && order[p] == c.source;
  }

  /** The list is in topological order before the sort by name, which moves each position to its place:
      the ends of a connection keep their order exactly when the target's name, empty for an unknown
      target, is not smaller. */
  lemma FinalOrder(w: Definition, order: seq<Id>, c: Connection) returns (place: seq<nat>)
    requires IsKahnOrder(w, order) && c in w.connections && c.target in order
    ensures c.source in order && Places(NodesOf(w.nodes, order), StableByName(NodesOf(w.nodes, order)), place)
    ensures var p, q := IndexOf(order, c.source), IndexOf(order, c.target);
            && p < q
            && (place[p] < place[q] <==> !Less(NodeOf(w.nodes, c.target).name, NodeOf(w.nodes, c.source).name))
  {
    var q := IndexOf(order, c.target);
    var p := SourceBefore(w, order, c, q);
    assert p == IndexOf(order, c.source);
    place := StablePlaces(NodesOf(w.nodes, order));
  }

  /** On a workflow with an unknown target the length test can pass although there is a cycle. */
  lemma UnknownTargetHidesCycle()
    ensures exists w: Definition, order ::
              IsKahnOrder(w, order) && |order| == |w.nodes| && DistinctIds(w) && !Acyclic(EdgesOf(w.connections))
  {
    var r, x, u := Id("r"), Id("x"), Id("u");
    assert r != x && r != u && x != u by { assert "r"[0] != "x"[0] && "r"[0] != "u"[0] && "x"[0] != "u"[0]; }
    var nodes := [Node(r, "webhook", "R"), Node(x, "set", "X")];
    var conns := [Connection(r, "main", u, "main"), Connection(x, "main", x, "main")];
    var w := Definition(nodes, conns, "stop");
    var e := EdgesOf(conns);
    assert e == {(r, u), (x, x)} by {
      assert conns[0] in conns && conns[1] in conns;
    }
    assert Ids(nodes) == {r, x} by { assert nodes[0].id == r && nodes[1].id == x; }
    assert PathBetween(e, x, x, [x, x]);
    SmallKahnOrder(w, e, r, x, u);
  }

  lemma SmallKahnOrder(w: Definition, e: Edges, r: Id, x: Id, u: Id)
    requires e == EdgesOf(w.connections) == {(r, u), (x, x)} && NodeIds(w) == {r, x}
    requires r != x && r != u && x != u
    ensures IsKahnOrder(w, [r, u])
  {
    var order := [r, u];
    assert Known(w) == {r, x, u} by { assert (r, u).1 == u && (x, x).1 == x; }
    assert order[..1] == [r];
    assert !SourcesIn(e, x, order) by { assert (x, x) in e; }
  }
}
