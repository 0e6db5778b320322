/** Node behaviour shared by the two engines. A node is a pure function of its merged input:
    credentials, variables and evaluated configuration are part of that function. */
module Runtime {
  import opened Reachability
  import opened Workflow

  datatype Value = Text(text: string) | Fields(fields: map<string, Value>) | Number(number: int)

  type Data = map<string, Value>

  /** A node either breaks down or returns data (possibly none), possibly with an error attached. */
  datatype Outcome = Failed(reason: string) | Returned(data: Option<Data>, error: Option<string>)

  type Behavior = (Id, Data) -> Outcome

  const RESERVED: set<string> := {"_output", "_loopState"}

  /** Later outputs win, and control keys are not handed on. */
  function Overlay(input: Data, output: Data): Data {
    input + (output - RESERVED)
  }

  /** The outputs of `sources`, merged in order; a source without output adds nothing. */
  function Gather(outputs: map<Id, Data>, sources: seq<Id>): Data {
    if sources == [] then map[]
    else
      var front, last := sources[..|sources| - 1], sources[|sources| - 1];
      if last in outputs then Overlay(Gather(outputs, front), outputs[last]) else Gather(outputs, front)
  }

  /** The output of the source at position `i` has the key `k`. */
  predicate Supplies(outputs: map<Id, Data>, sources: seq<Id>, k: string, i: int) {
    0 <= i < |sources| && sources[i] in outputs && k in outputs[sources[i]]
  }

  /** What a merge holds, key by key: a key other than the two control keys comes from the last source
      that supplies it, and the control keys are never handed on. */
  lemma {:induction false} GatherHolds(outputs: map<Id, Data>, sources: seq<Id>, k: string)
    ensures k in Gather(outputs, sources) <==>
            k != "_output" && k != "_loopState" && exists i :: Supplies(outputs, sources, k, i)
    ensures k in Gather(outputs, sources) ==>
            exists i :: Supplies(outputs, sources, k, i) && (forall j :: i < j ==> !Supplies(outputs, sources, k, j))
                        && Gather(outputs, sources)[k] == outputs[sources[i]][k]
  {
    if sources != [] {
      var front, n := sources[..|sources| - 1], |sources| - 1;
      GatherHolds(outputs, front, k);
      assert forall i :: Supplies(outputs, sources, k, i) <==> Supplies(outputs, front, k, i) || (i == n && Supplies(outputs, sources, k, n));
      if Supplies(outputs, sources, k, n) && k !in RESERVED {
        assert forall j :: n < j ==> !Supplies(outputs, sources, k, j);
      }
    }
  }

  /** Connection `i` into `x` comes from a node whose output has the key `k`. */
  predicate Feeds(outputs: map<Id, Data>, conns: seq<Connection>, x: Id, k: string, i: int) {
    0 <= i < |conns| && conns[i].target == x && conns[i].source in outputs && k in outputs[conns[i].source]
  }

  /** The same by connections: the last one into `x` that can supply a key does. */
  lemma {:induction false} InputHolds(outputs: map<Id, Data>, conns: seq<Connection>, x: Id, k: string)
    ensures k in Gather(outputs, Incoming(conns, x)) <==>
            k != "_output" && k != "_loopState" && exists i :: Feeds(outputs, conns, x, k, i)
    ensures k in Gather(outputs, Incoming(conns, x)) ==>
            exists i :: Feeds(outputs, conns, x, k, i) && (forall j :: i < j ==> !Feeds(outputs, conns, x, k, j))
                        && Gather(outputs, Incoming(conns, x))[k] == outputs[conns[i].source][k]
  {
    if conns != [] {
      var front, n := conns[..|conns| - 1], |conns| - 1;
      InputHolds(outputs, front, x, k);
      assert forall i :: Feeds(outputs, conns, x, k, i) <==>
                         Feeds(outputs, front, x, k, i) || (i == n && Feeds(outputs, conns, x, k, n));
      var ins := Incoming(conns, x);
      if conns[n].target == x {
        assert ins[..|ins| - 1] == Incoming(front, x) && ins[|ins| - 1] == conns[n].source;
      } else {
        assert ins == Incoming(front, x) && !Feeds(outputs, conns, x, k, n);
      }
      if Feeds(outputs, conns, x, k, n) {
        assert forall j :: n < j ==> !Feeds(outputs, conns, x, k, j);
      }
    }
  }

  lemma {:induction false} GatherFrame(a: map<Id, Data>, b: map<Id, Data>, sources: seq<Id>)
    requires forall s :: s in sources ==> (s in a <==> s in b) && (s in a ==> a[s] == b[s])
    ensures Gather(a, sources) == Gather(b, sources)
  {
    if sources != [] {
      assert sources[|sources| - 1] in sources;
      GatherFrame(a, b, sources[..|sources| - 1]);
    }
  }

  /** The branch port a node selects, if its output names one. */
  function SelectedPort(data: Data): Option<string> {
    if "_output" in data && data["_output"].Text? then Some(data["_output"].text) else None
  }

  /** Nodes that never fail, always return data and never branch. */
  ghost predicate Calm(f: Behavior) {
    forall n, d :: CalmAt(f, n, d)
  }

  predicate CalmAt(f: Behavior, n: Id, d: Data) {
    match f(n, d)
    case Returned(Some(data), None) => SelectedPort(data) == None
    case _ => false
  }

  /** The output a calm node computes. */
  function Computed(f: Behavior, n: Id, d: Data): Data {
    match f(n, d)
    case Returned(Some(data), _) => data
    case _ => map[]
  }

  /** `out` gives every node the output it computes from the outputs of its sources. */
  ghost predicate Solves(w: Definition, f: Behavior, out: map<Id, Data>) {
    out.Keys == NodeIds(w) && forall n :: n in out ==> SolvesAt(w, f, out, n)
  }

  ghost predicate SolvesAt(w: Definition, f: Behavior, out: map<Id, Data>, n: Id)
    requires n in out
  {
    out[n] == Computed(f, n, Gather(out, Incoming(w.connections, n)))
  }

  /** On an acyclic workflow the equations have at most one solution. */
  lemma {:induction false} SolutionUniqueAt(w: Definition, f: Behavior, a: map<Id, Data>, b: map<Id, Data>, n: Id)
    requires Acyclic(EdgesOf(w.connections)) && Closed(w)
    requires Solves(w, f, a) && Solves(w, f, b) && n in NodeIds(w)
    ensures a[n] == b[n]
    decreases |Above(EdgesOf(w.connections), n)|
  {
    var e := EdgesOf(w.connections);
    assert SolvesAt(w, f, a, n) && SolvesAt(w, f, b, n);
    forall s | s in Incoming(w.connections, n) ensures s in a && s in b && a[s] == b[s] {
      IncomingMembers(w.connections, n, s);
      AboveShrinks(e, s, n);
      SolutionUniqueAt(w, f, a, b, s);
    }
    GatherFrame(a, b, Incoming(w.connections, n));
  }

  lemma SolutionUnique(w: Definition, f: Behavior, a: map<Id, Data>, b: map<Id, Data>)
    requires Acyclic(EdgesOf(w.connections)) && Closed(w)
    requires Solves(w, f, a) && Solves(w, f, b)
    ensures a == b
  {
    forall n | n in a ensures a[n] == b[n] {
      SolutionUniqueAt(w, f, a, b, n);
    }
  }
}
