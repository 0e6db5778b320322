/** The workflow graph both execution engines run on. */
module Workflow {
  import opened Reachability

  datatype Option<+T> = None | Some(value: T)

  datatype Node = Node(id: Id, nodeType: string, name: string)

  datatype Connection = Connection(source: Id, sourcePort: string, target: Id, targetPort: string)

  datatype Definition = Definition(nodes: seq<Node>, connections: seq<Connection>, errorHandling: string)

  function NodeIds(w: Definition): set<Id> {
    Ids(w.nodes)
  }

  function Ids(nodes: seq<Node>): set<Id> {
    set i | 0 <= i < |nodes| :: nodes[i].id
  }

  predicate DistinctIds(w: Definition) {
    forall i, j :: 0 <= i < j < |w.nodes| ==> w.nodes[i].id != w.nodes[j].id
  }

  function EdgesOf(conns: seq<Connection>): Edges {
    set c | c in conns :: (c.source, c.target)
  }

  /** No identifier is listed twice. */
  predicate Once(s: seq<Id>) {
    forall i, j :: 0 <= i < j < |s| ==> s[i] != s[j]
  }

  /** Every connection joins two nodes of the workflow. */
  predicate Closed(w: Definition) {
    forall c :: c in w.connections ==> c.source in NodeIds(w) && c.target in NodeIds(w)
  }

  /** Targets of the connections leaving `x`, in connection order. */
  function Outgoing(conns: seq<Connection>, x: Id): seq<Id> {
    if conns == [] then []
    else
      var last := conns[|conns| - 1];
      Outgoing(conns[..|conns| - 1], x) + (if last.source == x then [last.target] else [])
  }

  /** Sources of the connections entering `x`, in connection order. */
  function Incoming(conns: seq<Connection>, x: Id): seq<Id> {
    if conns == [] then []
    else
      var last := conns[|conns| - 1];
      Incoming(conns[..|conns| - 1], x) + (if last.target == x then [last.source] else [])
  }

  /** How many connections enter `x` from outside `done`. */
  function Pending(conns: seq<Connection>, x: Id, done: set<Id>): nat {
    if conns == [] then 0
    else
      var last := conns[|conns| - 1];
      Pending(conns[..|conns| - 1], x, done) + (if last.target == x && last.source !in done then 1 else 0)
  }

  function InDegree(conns: seq<Connection>, x: Id): nat {
    Pending(conns, x, {})
  }

  lemma {:induction false} OutgoingMembers(conns: seq<Connection>, x: Id, y: Id)
    ensures y in Outgoing(conns, x) <==> (x, y) in EdgesOf(conns)
  {
    if conns != [] {
      var front, last := conns[..|conns| - 1], conns[|conns| - 1];
      assert conns == front + [last];
      OutgoingMembers(front, x, y);
      assert EdgesOf(conns) == EdgesOf(front) + {(last.source, last.target)};
    }
  }

  lemma {:induction false} IncomingMembers(conns: seq<Connection>, x: Id, y: Id)
    ensures y in Incoming(conns, x) <==> (y, x) in EdgesOf(conns)
  {
    if conns != [] {
      var front, last := conns[..|conns| - 1], conns[|conns| - 1];
      assert conns == front + [last];
      IncomingMembers(front, x, y);
      assert EdgesOf(conns) == EdgesOf(front) + {(last.source, last.target)};
    }
  }

  /** `at` lists in order the positions of exactly the connections that are `chosen`. */
  predicate Positions(conns: seq<Connection>, at: seq<nat>, chosen: Connection -> bool) {
    && (forall k :: 0 <= k < |at| ==> at[k] < |conns| && chosen(conns[at[k]]))
    && (forall j, k :: 0 <= j < k < |at| ==> at[j] < at[k])
    && (forall i: nat :: i < |conns| && chosen(conns[i]) ==> i in at)
  }

  lemma PositionsMore(conns: seq<Connection>, at: seq<nat>, chosen: Connection -> bool) returns (more: seq<nat>)
    requires |conns| > 0 && Positions(conns[..|conns| - 1], at, chosen)
    ensures more == at + if chosen(conns[|conns| - 1]) then [|conns| - 1] else []
    ensures Positions(conns, more, chosen)
  {
    more := at + if chosen(conns[|conns| - 1]) then [|conns| - 1] else [];
    forall i: nat | i < |conns| && chosen(conns[i]) ensures i in more {
      if i < |conns| - 1 {
        assert conns[..|conns| - 1][i] == conns[i] && i in at;
      }
    }
  }

  /** Incoming lists the sources of exactly the connections into `x`, in order, parallel ones each. */
  lemma {:induction false} IncomingListed(conns: seq<Connection>, x: Id) returns (at: seq<nat>)
    ensures Positions(conns, at, (c: Connection) => c.target == x) && |Incoming(conns, x)| == |at|
    ensures forall k :: 0 <= k < |at| ==> Incoming(conns, x)[k] == conns[at[k]].source
  {
    at := [];
    if |conns| > 0 {
      at := IncomingListed(conns[..|conns| - 1], x);
      at := PositionsMore(conns, at, (c: Connection) => c.target == x);
    }
  }

  lemma {:induction false} OutgoingListed(conns: seq<Connection>, x: Id) returns (at: seq<nat>)
    ensures Positions(conns, at, (c: Connection) => c.source == x) && |Outgoing(conns, x)| == |at|
    ensures forall k :: 0 <= k < |at| ==> Outgoing(conns, x)[k] == conns[at[k]].target
  {
    at := [];
    if |conns| > 0 {
      at := OutgoingListed(conns[..|conns| - 1], x);
      at := PositionsMore(conns, at, (c: Connection) => c.source == x);
    }
  }

  /** Nothing is pending exactly when every edge into `x` starts in `done`. */
  lemma {:induction false} PendingZero(conns: seq<Connection>, x: Id, done: set<Id>)
    ensures Pending(conns, x, done) == 0 <==> forall y :: (y, x) in EdgesOf(conns) ==> y in done
  {
    if conns != [] {
      var front, last := conns[..|conns| - 1], conns[|conns| - 1];
      assert conns == front + [last];
      PendingZero(front, x, done);
      assert EdgesOf(conns) == EdgesOf(front) + {(last.source, last.target)};
      if last.target == x && last.source !in done {
        assert (last.source, x) in EdgesOf(conns);
      }
    }
  }

  /** Finishing one more node lowers the pending count by its number of connections to `x`. */
  lemma {:induction false} PendingDrop(conns: seq<Connection>, x: Id, done: set<Id>, p: Id)
    requires p !in done
    ensures Pending(conns, x, done + {p}) + multiset(Outgoing(conns, p))[x] == Pending(conns, x, done)
  {
    if conns != [] {
      PendingDrop(conns[..|conns| - 1], x, done, p);
    }
  }

  lemma {:induction false} PendingMonotone(conns: seq<Connection>, x: Id, small: set<Id>, big: set<Id>)
    requires small <= big
    ensures Pending(conns, x, big) <= Pending(conns, x, small)
  {
    if conns != [] {
      PendingMonotone(conns[..|conns| - 1], x, small, big);
    }
  }
}
