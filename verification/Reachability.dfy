/** Directed graphs given by a finite set of edges between identifiers: paths,
    reachability, acyclicity and the well-founded measures that acyclicity gives.
    Workflow connections and folder parent links are both read as such edges. */
module Reachability {

  /** Node, folder and task identifiers. */
  datatype Id = Id(text: string)

  const NO_ID := Id("")

  type Edges = set<(Id, Id)>

  /** A path is a non-empty list of identifiers in which neighbours are joined by an edge. */
  predicate IsPath(e: Edges, p: seq<Id>) {
    |p| > 0 && forall i :: 0 <= i < |p| - 1 ==> (p[i], p[i + 1]) in e
  }

  predicate PathBetween(e: Edges, a: Id, b: Id, p: seq<Id>) {
    IsPath(e, p) && p[0] == a && p[|p| - 1] == b
  }

  ghost predicate Reach(e: Edges, a: Id, b: Id) {
    exists p :: PathBetween(e, a, b, p)
  }

  /** No path with at least one edge returns to where it started. */
  ghost predicate Acyclic(e: Edges) {
    forall a, p :: PathBetween(e, a, a, p) ==> |p| == 1
  }

  function Endpoints(e: Edges): set<Id> {
    (set x | x in e :: x.0) + (set x | x in e :: x.1)
  }

  // ---- Reachability is the reflexive, transitive closure of the edges ----

  lemma ReachSelf(e: Edges, a: Id)
    ensures Reach(e, a, a)
  {
    assert PathBetween(e, a, a, [a]);
  }

  lemma ReachCons(e: Edges, a: Id, b: Id, c: Id)
    requires (a, b) in e && Reach(e, b, c)
    ensures Reach(e, a, c)
  {
    var p :| PathBetween(e, b, c, p);
    assert PathBetween(e, a, c, [a] + p);
  }

  lemma ReachSnoc(e: Edges, a: Id, b: Id, c: Id)
    requires Reach(e, a, b) && (b, c) in e
    ensures Reach(e, a, c)
  {
    var p :| PathBetween(e, a, b, p);
    assert PathBetween(e, a, c, p + [c]);
  }

  lemma ReachTrans(e: Edges, a: Id, b: Id, c: Id)
    requires Reach(e, a, b) && Reach(e, b, c)
    ensures Reach(e, a, c)
  {
    var p :| PathBetween(e, a, b, p);
    var q :| PathBetween(e, b, c, q);
    assert PathBetween(e, a, c, p + q[1..]);
  }

  /** The first edge of a non-trivial path. */
  lemma FirstStep(e: Edges, a: Id, b: Id) returns (c: Id)
    requires Reach(e, a, b) && a != b
    ensures (a, c) in e && Reach(e, c, b)
  {
    var p :| PathBetween(e, a, b, p);
    c := p[1];
    assert PathBetween(e, c, b, p[1..]);
  }

  /** The last edge of a non-trivial path. */
  lemma LastStep(e: Edges, a: Id, b: Id) returns (c: Id)
    requires Reach(e, a, b) && a != b
    ensures Reach(e, a, c) && (c, b) in e
  {
    var p :| PathBetween(e, a, b, p);
    c := p[|p| - 2];
    assert PathBetween(e, a, c, p[..|p| - 1]);
  }

  lemma ReachMonotone(e: Edges, f: Edges, a: Id, b: Id)
    requires e <= f && Reach(e, a, b)
    ensures Reach(f, a, b)
  {
    var p :| PathBetween(e, a, b, p);
    assert PathBetween(f, a, b, p);
  }

  // ---- Acyclicity ----

  /** Acyclicity edge by edge: no edge can be undone by a path. */
  lemma AcyclicByEdges(e: Edges)
    ensures Acyclic(e) <==> forall a, b :: (a, b) in e ==> !Reach(e, b, a)
  {
    if Acyclic(e) {
      forall a, b | (a, b) in e ensures !Reach(e, b, a) {
        if Reach(e, b, a) {
          var p :| PathBetween(e, b, a, p);
          assert PathBetween(e, a, a, [a] + p);
        }
      }
    }
    if forall a, b :: (a, b) in e ==> !Reach(e, b, a) {
      forall a, p | PathBetween(e, a, a, p) ensures |p| == 1 {
        if |p| > 1 {
          assert (p[0], p[1]) in e;
          assert PathBetween(e, p[1], a, p[1..]);
        }
      }
    }
  }

  lemma AcyclicSubset(e: Edges, f: Edges)
    requires e <= f && Acyclic(f)
    ensures Acyclic(e)
  {
    forall a, p | PathBetween(e, a, a, p) ensures |p| == 1 {
      assert PathBetween(f, a, a, p);
    }
  }

  /** What a single extra edge (a, b) makes reachable. */
  lemma {:induction false} ReachWithEdge(e: Edges, a: Id, b: Id, p: seq<Id>)
    requires IsPath(e + {(a, b)}, p)
    ensures var x, y := p[0], p[|p| - 1];
            Reach(e, x, y) || (Reach(e, x, a) && Reach(e, b, y))
    decreases |p|
  {
    var x, y := p[0], p[|p| - 1];
    if |p| == 1 {
      ReachSelf(e, x);
    } else {
      ReachWithEdge(e, a, b, p[1..]);
      var z := p[1];
      if (x, z) in e {
        if Reach(e, z, y) { ReachCons(e, x, z, y); } else { ReachCons(e, x, z, a); }
      } else {
        ReachSelf(e, a);
      }
    }
  }

  /** Adding one edge keeps a graph acyclic exactly when the edge closes no path. */
  lemma AcyclicAddEdge(e: Edges, a: Id, b: Id)
    requires Acyclic(e)
    ensures Acyclic(e + {(a, b)}) <==> !Reach(e, b, a)
  {
    var f := e + {(a, b)};
    AcyclicByEdges(e);
    AcyclicByEdges(f);
    if Reach(e, b, a) {
      ReachMonotone(e, f, b, a);
      assert (a, b) in f;
    } else {
      forall x, z | (x, z) in f ensures !Reach(f, z, x) {
        if Reach(f, z, x) {
          var p :| PathBetween(f, z, x, p);
          ReachWithEdge(e, a, b, p);
          if (x, z) in e && !Reach(e, z, x) {
            ReachCons(e, x, z, a);
            ReachTrans(e, b, x, a);
          }
        }
      }
    }
  }

  /** A rank that grows along every edge grows by at least the length of every path. */
  lemma {:induction false} RankAlongPath(e: Edges, rank: map<Id, nat>, p: seq<Id>)
    requires forall a, b :: (a, b) in e ==> a in rank && b in rank && rank[a] < rank[b]
    requires IsPath(e, p) && p[0] in rank
    ensures p[|p| - 1] in rank && rank[p[0]] + |p| - 1 <= rank[p[|p| - 1]]
    decreases |p|
  {
    if |p| > 1 {
      assert (p[0], p[1]) in e;
      RankAlongPath(e, rank, p[1..]);
    }
  }

  lemma RankedIsAcyclic(e: Edges, rank: map<Id, nat>)
    requires forall a, b :: (a, b) in e ==> a in rank && b in rank && rank[a] < rank[b]
    ensures Acyclic(e)
  {
    forall a, p | PathBetween(e, a, a, p) ensures |p| == 1 {
      if |p| > 1 {
        assert (p[0], p[1]) in e;
        RankAlongPath(e, rank, p);
      }
    }
  }

  // ---- Well-founded measures of an acyclic graph ----

  /** Everything reachable from `a`, itself included. */
  ghost function Below(e: Edges, a: Id): set<Id> {
    set b | b in Endpoints(e) + {a} && Reach(e, a, b)
  }

  /** Everything that reaches `b`, itself included. */
  ghost function Above(e: Edges, b: Id): set<Id> {
    set a | a in Endpoints(e) + {b} && Reach(e, a, b)
  }

  lemma SmallerSet<T>(a: set<T>, b: set<T>)
    requires a < b
    ensures |a| < |b|
  {
    assert b == a + (b - a);
  }

  /** No cycle can be reached from `x`. */
  ghost predicate NoCycleFrom(e: Edges, x: Id) {
    forall a, b {:trigger Reach(e, x, a), Reach(e, b, a)} :: Reach(e, x, a) && (a, b) in e ==> !Reach(e, b, a)
  }

  /** No cycle leads to `x`. */
  ghost predicate NoCycleTo(e: Edges, x: Id) {
    forall a, b {:trigger Reach(e, b, x), Reach(e, b, a)} :: Reach(e, b, x) && (a, b) in e ==> !Reach(e, b, a)
  }

  lemma NoCycleOnward(e: Edges, x: Id, y: Id)
    requires NoCycleFrom(e, x) && (x, y) in e
    ensures NoCycleFrom(e, y) && !Reach(e, y, x)
  {
    ReachSelf(e, x);
    forall a, b | Reach(e, y, a) && (a, b) in e ensures !Reach(e, b, a) {
      ReachCons(e, x, y, a);
    }
  }

  lemma NoCycleBack(e: Edges, x: Id, y: Id)
    requires NoCycleTo(e, y) && (x, y) in e
    ensures NoCycleTo(e, x) && !Reach(e, y, x)
  {
    ReachSelf(e, y);
    forall a, b | Reach(e, b, x) && (a, b) in e ensures !Reach(e, b, a) {
      ReachSnoc(e, b, x, y);
    }
  }

  lemma NoCycleSubset(e: Edges, f: Edges, x: Id)
    requires e <= f && NoCycleFrom(f, x)
    ensures NoCycleFrom(e, x)
  {
    forall a, b | Reach(e, x, a) && (a, b) in e ensures !Reach(e, b, a) {
      ReachMonotone(e, f, x, a);
      if Reach(e, b, a) {
        ReachMonotone(e, f, b, a);
      }
    }
  }

  lemma BelowShrinks(e: Edges, a: Id, b: Id)
    requires Acyclic(e) && (a, b) in e
    ensures Below(e, b) < Below(e, a)
    ensures |Below(e, b)| < |Below(e, a)|
  {
    AcyclicByEdges(e);
    BelowShrinksAt(e, a, b);
  }

  lemma BelowShrinksAt(e: Edges, a: Id, b: Id)
    requires (a, b) in e && !Reach(e, b, a)
    ensures Below(e, b) < Below(e, a)
    ensures |Below(e, b)| < |Below(e, a)|
  {
    forall x | x in Below(e, b) ensures x in Below(e, a) {
      ReachCons(e, a, b, x);
      assert b == (a, b).1;
    }
    ReachSelf(e, a);
    assert a in Below(e, a) && a !in Below(e, b);
    SmallerSet(Below(e, b), Below(e, a));
  }

  lemma AboveShrinks(e: Edges, a: Id, b: Id)
    requires Acyclic(e) && (a, b) in e
    ensures Above(e, a) < Above(e, b)
    ensures |Above(e, a)| < |Above(e, b)|
  {
    AcyclicByEdges(e);
    AboveShrinksAt(e, a, b);
  }

  lemma AboveShrinksAt(e: Edges, a: Id, b: Id)
    requires (a, b) in e && !Reach(e, b, a)
    ensures Above(e, a) < Above(e, b)
    ensures |Above(e, a)| < |Above(e, b)|
  {
    forall x | x in Above(e, a) ensures x in Above(e, b) {
      ReachSnoc(e, x, a, b);
      assert a == (a, b).0;
    }
    ReachSelf(e, b);
    assert b in Above(e, b) && b !in Above(e, a);
    SmallerSet(Above(e, a), Above(e, b));
  }

  /** Every non-empty set of identifiers of an acyclic graph has a member without
      predecessor in the set. */
  lemma {:induction false} MinimalMember(e: Edges, s: set<Id>, u: Id) returns (m: Id)
    requires Acyclic(e) && u in s
    ensures m in s && forall y :: y in s ==> (y, m) !in e
    decreases |Above(e, u)|
  {
    if v :| v in s && (v, u) in e {
      AboveShrinks(e, v, u);
      m := MinimalMember(e, s, v);
    } else {
      m := u;
    }
  }
}
