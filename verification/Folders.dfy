// internal/workflow/features/folders.go: the folder service over its in-memory repository.

module Folders {
  import opened Reachability
  import opened Workflow

  datatype Folder = Folder(id: Id, name: string, parent: Option<Id>, path: string, depth: int)

  type Repository = map<Id, Folder>

  datatype Reply = Done | ParentNotFound | TooDeep | NotFound | Circular | HasSubfolders

  datatype Changed = Changed(folders: Repository, reply: Reply)

  datatype Op =
    | Create(folder: Folder, freshId: Id)
    | Update(folder: Folder)
    | Move(id: Id, parent: Option<Id>)
    | Delete(id: Id, recursive: bool)

  const MAX_DEPTH := 10

  /** Parent links, read downwards. */
  function Links(fs: Repository): Edges {
    set id | id in fs && fs[id].parent.Some? :: (fs[id].parent.value, id)
  }

  predicate Keyed(fs: Repository) {
    forall id :: id in fs ==> fs[id].id == id
  }

  /** No folder names a parent that does not exist. */
  predicate Anchored(fs: Repository) {
    forall id :: id in fs && fs[id].parent.Some? ==> fs[id].parent.value in fs
  }

  ghost predicate Forest(fs: Repository) {
    Keyed(fs) && Anchored(fs) && Acyclic(Links(fs))
  }

  predicate ParentKnown(fs: Repository, parent: Option<Id>) {
    parent.Some? ==> parent.value in fs
  }

  function PathUnder(fs: Repository, parent: Option<Id>, name: string): string
    requires ParentKnown(fs, parent)
  {
    if parent.Some? then fs[parent.value].path + "/" + name else "/" + name
  }

  function DepthUnder(fs: Repository, parent: Option<Id>): int
    requires ParentKnown(fs, parent)
  {
    if parent.Some? then fs[parent.value].depth + 1 else 0
  }

  function Named(folder: Folder, freshId: Id): Folder {
    if folder.id == NO_ID then folder.(id := freshId) else folder
  }

  function CreateStep(fs: Repository, folder: Folder, freshId: Id): Changed {
    var f := Named(folder, freshId);
    if !ParentKnown(fs, f.parent) then Changed(fs, ParentNotFound)
    else if f.parent.Some? && DepthUnder(fs, f.parent) > MAX_DEPTH then Changed(fs, TooDeep)
    else
      var f := f.(path := PathUnder(fs, f.parent, f.name), depth := DepthUnder(fs, f.parent));
      Changed(fs[f.id := f], Done)
  }

  /** Update trusts the depth and the parent it is given, and inserts an unknown folder. */
  function UpdateStep(fs: Repository, f: Folder): Changed {
    if !ParentKnown(fs, f.parent) then Changed(fs, ParentNotFound)
    else Changed(fs[f.id := f.(path := PathUnder(fs, f.parent, f.name))], Done)
  }

  function Moved(fs: Repository, id: Id, parent: Option<Id>): Folder
    requires id in fs && ParentKnown(fs, parent)
  {
    fs[id].(parent := parent, path := PathUnder(fs, parent, fs[id].name), depth := DepthUnder(fs, parent))
  }

  /** `parent` is the folder itself or below it. */
  ghost predicate BelowSelf(fs: Repository, id: Id, parent: Option<Id>) {
    parent.Some? && Reach(Links(fs), id, parent.value)
  }

  ghost function MoveStep(fs: Repository, id: Id, parent: Option<Id>): Changed {
    if id !in fs then Changed(fs, NotFound)
    else if BelowSelf(fs, id, parent) then Changed(fs, Circular)
    else if !ParentKnown(fs, parent) then Changed(fs, ParentNotFound)
    else Changed(fs[id := Moved(fs, id, parent)], Done)
  }

  predicate HasChildren(fs: Repository, id: Id) {
    exists c :: c in fs && fs[c].parent == Some(id)
  }

  /** The repository without what is below any of `roots`, themselves included. */
  ghost function Pruned(fs: Repository, roots: set<Id>): Repository {
    map x | x in fs && !BelowAny(fs, roots, x) :: fs[x]
  }

  ghost predicate BelowAny(fs: Repository, roots: set<Id>, x: Id) {
    exists r :: r in roots && Reach(Links(fs), r, x)
  }

  ghost function DeleteStep(fs: Repository, id: Id, recursive: bool): Changed {
    if recursive then Changed(Pruned(fs, {id}), Done)
    else if HasChildren(fs, id) then Changed(fs, HasSubfolders)
    else Changed(fs - {id}, Done)
  }

  ghost function Step(fs: Repository, op: Op): Changed {
    match op
    case Create(f, freshId) => CreateStep(fs, f, freshId)
    case Update(f) => UpdateStep(fs, f)
    case Move(id, parent) => MoveStep(fs, id, parent)
    case Delete(id, recursive) => DeleteStep(fs, id, recursive)
  }

  // ---- Storing one folder ----

  function Cut(e: Edges, id: Id): Edges {
    set x | x in e && x.1 != id
  }

  lemma Link(fs: Repository, a: Id, b: Id)
    ensures (a, b) in Links(fs) <==> b in fs && fs[b].parent == Some(a)
  {
  }

  lemma LinksOfStored(fs: Repository, f: Folder)
    ensures Links(fs[f.id := f]) == Cut(Links(fs), f.id) + (if f.parent.Some? then {(f.parent.value, f.id)} else {})
  {
    var fs' := fs[f.id := f];
    forall a, b
      ensures (a, b) in Links(fs') <==>
              (a, b) in Cut(Links(fs), f.id) + (if f.parent.Some? then {(f.parent.value, f.id)} else {})
    {
      Link(fs, a, b);
      Link(fs', a, b);
    }
  }

  /** Below a folder of an acyclic graph nothing changes when the links into it are cut. */
  lemma CutBelow(e: Edges, id: Id, x: Id)
    requires Acyclic(e)
    ensures Reach(Cut(e, id), id, x) <==> Reach(e, id, x)
  {
    if Reach(e, id, x) {
      var p :| PathBetween(e, id, x, p);
      forall i | 0 <= i < |p| - 1 ensures (p[i], p[i + 1]) in Cut(e, id) {
        if p[i + 1] == id {
          assert PathBetween(e, id, id, p[..i + 2]);
        }
      }
      assert PathBetween(Cut(e, id), id, x, p);
    }
    if Reach(Cut(e, id), id, x) {
      ReachMonotone(Cut(e, id), e, id, x);
    }
  }

  lemma StrangerHasNothingBelow(fs: Repository, id: Id, x: Id)
    requires Anchored(fs) && id !in fs && Reach(Links(fs), id, x)
    ensures x == id
  {
    if x != id {
      var c := FirstStep(Links(fs), id, x);
    }
  }

  /** Storing a folder keeps the forest exactly when its parent is not the folder itself or below it. */
  lemma StoreKeepsForest(fs: Repository, f: Folder)
    requires Forest(fs) && ParentKnown(fs, f.parent)
    ensures Forest(fs[f.id := f]) <==> !BelowSelf(fs, f.id, f.parent)
  {
    var e := Links(fs);
    LinksOfStored(fs, f);
    AcyclicSubset(Cut(e, f.id), e);
    if f.parent.Some? {
      AcyclicAddEdge(Cut(e, f.id), f.parent.value, f.id);
      CutBelow(e, f.id, f.parent.value);
    } else {
      assert Links(fs[f.id := f]) == Cut(e, f.id);
    }
  }

  // ---- Paths and depths ----

  predicate InPlace(fs: Repository, id: Id)
    requires id in fs
  {
    ParentKnown(fs, fs[id].parent) &&
    fs[id].path == PathUnder(fs, fs[id].parent, fs[id].name) && fs[id].depth == DepthUnder(fs, fs[id].parent)
  }

  /** Every folder's path and depth are those of its parent, one step further. */
  predicate PlacesRight(fs: Repository) {
    forall id :: id in fs ==> InPlace(fs, id)
  }

  predicate SamePlace(fs: Repository, f: Folder) {
    f.id in fs && fs[f.id].path == f.path && fs[f.id].depth == f.depth
  }

  /** Storing a folder leaves all places right exactly when its own is right and it either has no
      subfolders or did not change place: the places of subfolders are not recomputed. */
  lemma StoreKeepsPlaces(fs: Repository, f: Folder)
    requires Forest(fs) && PlacesRight(fs) && ParentKnown(fs, f.parent) && !BelowSelf(fs, f.id, f.parent)
    ensures PlacesRight(fs[f.id := f]) <==>
            f.path == PathUnder(fs, f.parent, f.name) && f.depth == DepthUnder(fs, f.parent)
            && (HasChildren(fs, f.id) ==> SamePlace(fs, f))
  {
    var fs' := fs[f.id := f];
    ReachSelf(Links(fs), f.id);
    assert f.parent != Some(f.id);
    assert InPlace(fs', f.id) <==> f.path == PathUnder(fs, f.parent, f.name) && f.depth == DepthUnder(fs, f.parent);
    if HasChildren(fs, f.id) && PlacesRight(fs') {
      var c :| c in fs && fs[c].parent == Some(f.id);
      ChildInPlace(fs, f, c);
    }
    if HasChildren(fs, f.id) ==> SamePlace(fs, f) {
      forall id | id in fs && id != f.id ensures InPlace(fs', id) {
        ChildInPlace(fs, f, id);
      }
    }
  }

  lemma ChildInPlace(fs: Repository, f: Folder, c: Id)
    requires Forest(fs) && PlacesRight(fs) && c in fs
    ensures fs[c].parent == Some(f.id) ==> c != f.id && (InPlace(fs[f.id := f], c) <==> SamePlace(fs, f))
    ensures fs[c].parent != Some(f.id) && c != f.id ==> InPlace(fs[f.id := f], c)
  {
    assert InPlace(fs, c);
    NotOwnParent(fs, c);
    if fs[c].parent == Some(f.id) && InPlace(fs[f.id := f], c) {
      PathsDiffer(fs[f.id].path, f.path, fs[c].name);
    }
  }

  lemma NotOwnParent(fs: Repository, id: Id)
    requires Forest(fs) && id in fs
    ensures fs[id].parent != Some(id)
  {
    if fs[id].parent == Some(id) {
      assert (id, id) in Links(fs);
      assert PathBetween(Links(fs), id, id, [id, id]);
    }
  }

  lemma PathsDiffer(p: string, q: string, name: string)
    requires p + "/" + name == q + "/" + name
    ensures p == q
  {
    assert |p| == |q|;
    forall i | 0 <= i < |p| ensures p[i] == q[i] {
      assert (p + "/" + name)[i] == p[i] && (q + "/" + name)[i] == q[i];
    }
  }

  // ---- Deleting whole subtrees ----

  lemma PrunedLink(fs: Repository, roots: set<Id>, a: Id, b: Id)
    ensures (a, b) in Links(Pruned(fs, roots)) <==> (a, b) in Links(fs) && !BelowAny(fs, roots, b)
  {
    Link(fs, a, b);
    Link(Pruned(fs, roots), a, b);
  }

  lemma BelowAnyDown(fs: Repository, roots: set<Id>, a: Id, b: Id)
    requires BelowAny(fs, roots, a) && Reach(Links(fs), a, b)
    ensures BelowAny(fs, roots, b)
  {
    var r :| r in roots && Reach(Links(fs), r, a);
    ReachTrans(Links(fs), r, a, b);
  }

  lemma PrunedLinks(fs: Repository, roots: set<Id>)
    ensures Links(Pruned(fs, roots)) <= Links(fs)
  {
    forall a, b | (a, b) in Links(Pruned(fs, roots)) ensures (a, b) in Links(fs) {
      PrunedLink(fs, roots, a, b);
    }
  }

  lemma PruneKeepsForest(fs: Repository, roots: set<Id>)
    requires Forest(fs)
    ensures Forest(Pruned(fs, roots))
    ensures PlacesRight(fs) ==> PlacesRight(Pruned(fs, roots))
  {
    var ps := Pruned(fs, roots);
    PrunedLinks(fs, roots);
    AcyclicSubset(Links(ps), Links(fs));
    forall id | id in ps && ps[id].parent.Some? ensures ps[id].parent.value in ps {
      var a := fs[id].parent.value;
      Link(fs, a, id);
      ReachSelf(Links(fs), id);
      ReachCons(Links(fs), a, id, id);
      if BelowAny(fs, roots, a) {
        BelowAnyDown(fs, roots, a, id);
      }
    }
    if PlacesRight(fs) {
      forall id | id in ps ensures InPlace(ps, id) {
        assert InPlace(fs, id);
      }
    }
  }

  lemma SuffixReaches(e: Edges, p: seq<Id>, i: nat)
    requires IsPath(e, p) && i < |p|
    ensures Reach(e, p[i], p[|p| - 1])
  {
    assert PathBetween(e, p[i], p[|p| - 1], p[i..]);
  }

  /** What is left is reached as it was. */
  lemma PrunedReach(fs: Repository, roots: set<Id>, b: Id, x: Id)
    requires x in Pruned(fs, roots)
    ensures Reach(Links(Pruned(fs, roots)), b, x) <==> Reach(Links(fs), b, x)
  {
    var e, f := Links(fs), Links(Pruned(fs, roots));
    PrunedLinks(fs, roots);
    if Reach(f, b, x) {
      ReachMonotone(f, e, b, x);
    }
    if Reach(e, b, x) {
      var p :| PathBetween(e, b, x, p);
      forall i | 0 <= i < |p| - 1 ensures (p[i], p[i + 1]) in f {
        SuffixReaches(e, p, i + 1);
        if BelowAny(fs, roots, p[i + 1]) {
          BelowAnyDown(fs, roots, p[i + 1], x);
        }
        PrunedLink(fs, roots, p[i], p[i + 1]);
      }
      assert PathBetween(f, b, x, p);
    }
  }

  lemma PruneTwice(fs: Repository, roots: set<Id>, b: Id)
    ensures Pruned(Pruned(fs, roots), {b}) == Pruned(fs, roots + {b})
  {
    var once, twice, both := Pruned(fs, roots), Pruned(Pruned(fs, roots), {b}), Pruned(fs, roots + {b});
    forall x ensures x in twice <==> x in both {
      if x in once {
        PrunedReach(fs, roots, b, x);
        assert BelowAny(once, {b}, x) <==> Reach(Links(once), b, x);
        assert BelowAny(fs, roots + {b}, x) <==> BelowAny(fs, roots, x) || Reach(Links(fs), b, x);
      } else if x in fs {
        var r :| r in roots && Reach(Links(fs), r, x);
        assert r in roots + {b};
      }
    }
  }

  /** Pruning below every child of a folder and then removing it is pruning below the folder. */
  lemma PruneChildren(fs: Repository, id: Id, children: set<Id>)
    requires forall c :: c in children <==> c in fs && fs[c].parent == Some(id)
    ensures Pruned(fs, children) - {id} == Pruned(fs, {id})
  {
    var e := Links(fs);
    forall x ensures x in Pruned(fs, children) - {id} <==> x in Pruned(fs, {id}) {
      ReachSelf(e, id);
      if x != id && Reach(e, id, x) {
        var c := FirstStep(e, id, x);
        Link(fs, id, c);
        assert BelowAny(fs, children, x);
      }
      if BelowAny(fs, children, x) {
        var c :| c in children && Reach(e, c, x);
        Link(fs, id, c);
        ReachCons(e, id, c, x);
      }
      assert BelowAny(fs, {id}, x) <==> Reach(e, id, x);
    }
  }

  lemma BelowMonotone(e: Edges, f: Edges, a: Id)
    requires e <= f
    ensures Below(e, a) <= Below(f, a)
  {
    forall b | b in Below(e, a) ensures b in Below(f, a) {
      ReachMonotone(e, f, a, b);
      assert Endpoints(e) <= Endpoints(f);
    }
  }

  lemma PruneNothing(fs: Repository)
    ensures Pruned(fs, {}) == fs
  {
  }

  // ---- Every run ----

  /** An operation that would store a folder under itself or under something below it. */
  ghost predicate Tangles(fs: Repository, op: Op) {
    && Step(fs, op).reply.Done?
    && match op
       case Create(f, freshId) => BelowSelf(fs, Named(f, freshId).id, f.parent)
       case Update(f) => BelowSelf(fs, f.id, f.parent)
       case Move(_, _) => false
       case Delete(_, _) => false
  }

  lemma RemoveLeaf(fs: Repository, id: Id)
    requires Forest(fs) && !HasChildren(fs, id)
    ensures Forest(fs - {id})
  {
    PruneChildren(fs, id, {});
    PruneNothing(fs);
    PruneKeepsForest(fs, {id});
  }

  /** Exactly the tangling operations break the forest; Move and Delete never do. */
  lemma StepKeepsForest(fs: Repository, op: Op)
    requires Forest(fs)
    ensures Forest(Step(fs, op).folders) <==> !Tangles(fs, op)
  {
    match op {
      case Create(f, freshId) =>
        var n := Named(f, freshId);
        if ParentKnown(fs, n.parent) {
          StoreKeepsForest(fs, n.(path := PathUnder(fs, n.parent, n.name), depth := DepthUnder(fs, n.parent)));
        }
      case Update(f) =>
        if ParentKnown(fs, f.parent) {
          StoreKeepsForest(fs, f.(path := PathUnder(fs, f.parent, f.name)));
        }
      case Move(id, parent) =>
        if id in fs && ParentKnown(fs, parent) {
          StoreKeepsForest(fs, Moved(fs, id, parent));
        }
      case Delete(id, recursive) =>
        if recursive {
          PruneKeepsForest(fs, {id});
        } else if !HasChildren(fs, id) {
          RemoveLeaf(fs, id);
        }
    }
  }

  /** A new identifier never tangles. */
  lemma FreshNeverTangles(fs: Repository, f: Folder, freshId: Id)
    requires Forest(fs) && Named(f, freshId).id !in fs
    ensures !Tangles(fs, Create(f, freshId))
  {
    var id := Named(f, freshId).id;
    if BelowSelf(fs, id, f.parent) {
      StrangerHasNothingBelow(fs, id, f.parent.value);
    }
  }

  ghost function Run(ops: seq<Op>): Repository {
    if |ops| == 0 then map[] else Step(Run(ops[..|ops| - 1]), ops[|ops| - 1]).folders
  }

  /** Folders are created under new identifiers and updated under the parent they have. */
  ghost predicate Orderly(fs: Repository, op: Op) {
    match op
    case Create(f, freshId) => Named(f, freshId).id !in fs
    case Update(f) => f.id in fs && f.parent == fs[f.id].parent
    case _ => true
  }

  ghost predicate OrderlyRun(ops: seq<Op>) {
    |ops| > 0 ==> OrderlyRun(ops[..|ops| - 1]) && Orderly(Run(ops[..|ops| - 1]), ops[|ops| - 1])
  }

  lemma {:induction false} RunKeepsForest(ops: seq<Op>)
    requires OrderlyRun(ops)
    ensures Forest(Run(ops))
  {
    if |ops| == 0 {
      assert Links(map[]) == {};
      RankedIsAcyclic({}, map[]);
    } else {
      var fs, op := Run(ops[..|ops| - 1]), ops[|ops| - 1];
      RunKeepsForest(ops[..|ops| - 1]);
      if op.Create? {
        FreshNeverTangles(fs, op.folder, op.freshId);
      } else if op.Update? {
        OwnParentNotBelow(fs, op.folder.id);
      }
      StepKeepsForest(fs, op);
    }
  }

  /** Moving a folder leaves every path and depth right exactly when it has no subfolders, or ends up
      at the path and depth it had. */
  lemma MoveKeepsPlaces(fs: Repository, id: Id, parent: Option<Id>)
    requires Forest(fs) && PlacesRight(fs) && MoveStep(fs, id, parent).reply.Done?
    ensures PlacesRight(MoveStep(fs, id, parent).folders) <==>
            (HasChildren(fs, id) ==> SamePlace(fs, Moved(fs, id, parent)))
  {
    StoreKeepsPlaces(fs, Moved(fs, id, parent));
  }

  lemma CreateKeepsPlaces(fs: Repository, f: Folder, freshId: Id)
    requires Forest(fs) && PlacesRight(fs) && Named(f, freshId).id !in fs
    ensures PlacesRight(CreateStep(fs, f, freshId).folders)
  {
    var n := Named(f, freshId);
    if ParentKnown(fs, n.parent) {
      if BelowSelf(fs, n.id, n.parent) {
        StrangerHasNothingBelow(fs, n.id, n.parent.value);
      }
      assert !HasChildren(fs, n.id);
      StoreKeepsPlaces(fs, n.(path := PathUnder(fs, n.parent, n.name), depth := DepthUnder(fs, n.parent)));
    }
  }

  // ---- How deep folders are nested ----

  /** No chain of parent links is longer than `n`. */
  ghost predicate NestedWithin(fs: Repository, n: int) {
    forall p :: IsPath(Links(fs), p) ==> |p| - 1 <= n
  }

  /** The number of folders above, whatever the stored depth says. */
  ghost function Level(fs: Repository, id: Id): nat
    requires Forest(fs) && id in fs
    decreases |Above(Links(fs), id)|
  {
    if fs[id].parent.None? then 0
    else
      Link(fs, fs[id].parent.value, id);
      AboveShrinks(Links(fs), fs[id].parent.value, id);
      Level(fs, fs[id].parent.value) + 1
  }

  ghost function LevelUnder(fs: Repository, parent: Option<Id>): nat
    requires Forest(fs) && ParentKnown(fs, parent)
  {
    if parent.Some? then Level(fs, parent.value) + 1 else 0
  }

  /** Along a chain the level grows by one a link. */
  lemma {:induction false} LevelAlong(fs: Repository, p: seq<Id>)
    requires Forest(fs) && IsPath(Links(fs), p) && |p| > 1
    ensures p[0] in fs && p[|p| - 1] in fs && Level(fs, p[|p| - 1]) == Level(fs, p[0]) + |p| - 1
    decreases |p|
  {
    var front := p[..|p| - 1];
    Link(fs, p[|p| - 2], p[|p| - 1]);
    if |p| > 2 {
      LevelAlong(fs, front);
    }
  }

  lemma {:induction false} LongestChain(fs: Repository, id: Id) returns (p: seq<Id>)
    requires Forest(fs) && id in fs
    ensures IsPath(Links(fs), p) && p[|p| - 1] == id && |p| - 1 == Level(fs, id)
    decreases |Above(Links(fs), id)|
  {
    if fs[id].parent.None? {
      p := [id];
    } else {
      Link(fs, fs[id].parent.value, id);
      AboveShrinks(Links(fs), fs[id].parent.value, id);
      p := LongestChain(fs, fs[id].parent.value);
      p := p + [id];
    }
  }

  /** The nesting is within a limit exactly when every folder's level is. */
  lemma NestedByLevel(fs: Repository, n: nat)
    requires Forest(fs)
    ensures NestedWithin(fs, n) <==> forall id :: id in fs ==> Level(fs, id) <= n
  {
    if NestedWithin(fs, n) {
      forall id | id in fs ensures Level(fs, id) <= n {
        var p := LongestChain(fs, id);
      }
    }
    if forall id :: id in fs ==> Level(fs, id) <= n {
      forall p | IsPath(Links(fs), p) ensures |p| - 1 <= n {
        if |p| > 1 {
          LevelAlong(fs, p);
        }
      }
    }
  }

  /** Stored depths that are right are the levels. */
  lemma {:induction false} DepthIsLevel(fs: Repository, id: Id)
    requires Forest(fs) && PlacesRight(fs) && id in fs
    ensures fs[id].depth == Level(fs, id)
    decreases |Above(Links(fs), id)|
  {
    assert InPlace(fs, id);
    if fs[id].parent.Some? {
      Link(fs, fs[id].parent.value, id);
      AboveShrinks(Links(fs), fs[id].parent.value, id);
      DepthIsLevel(fs, fs[id].parent.value);
    }
  }

  /** The names along a chain, each after a slash. */
  function Spelled(fs: Repository, p: seq<Id>): string
    requires forall i :: 0 <= i < |p| ==> p[i] in fs
  {
    if |p| == 0 then "" else Spelled(fs, p[..|p| - 1]) + "/" + fs[p[|p| - 1]].name
  }

  /** A right place is the names and the number of the folders above, from the root down. */
  lemma {:induction false} PlaceSpells(fs: Repository, id: Id) returns (p: seq<Id>)
    requires Forest(fs) && PlacesRight(fs) && id in fs
    ensures IsPath(Links(fs), p) && p[|p| - 1] == id && (forall i :: 0 <= i < |p| ==> p[i] in fs) && fs[p[0]].parent == None
    ensures fs[id].path == Spelled(fs, p) && fs[id].depth == |p| - 1
    decreases |Above(Links(fs), id)|
  {
    assert InPlace(fs, id);
    if fs[id].parent.None? {
      SpelledMore(fs, [], id);
      p := [id];
      assert [] + [id] == p && Spelled(fs, []) == "";
    } else {
      Link(fs, fs[id].parent.value, id);
      AboveShrinks(Links(fs), fs[id].parent.value, id);
      var q := PlaceSpells(fs, fs[id].parent.value);
      SpelledMore(fs, q, id);
      p := q + [id];
    }
  }

  lemma SpelledMore(fs: Repository, p: seq<Id>, id: Id)
    requires id in fs && forall i :: 0 <= i < |p| ==> p[i] in fs
    ensures Spelled(fs, p + [id]) == Spelled(fs, p) + "/" + fs[id].name
  {
    assert (p + [id])[..|p|] == p;
  }

  /** The level `id` has once `f` is stored: what is below `f` moves along with it. */
  ghost function LevelThen(fs: Repository, f: Folder, id: Id): int
    requires Forest(fs) && ParentKnown(fs, f.parent) && (id in fs || id == f.id)
  {
    if id == f.id then LevelUnder(fs, f.parent)
    else if f.id in fs && Reach(Links(fs), f.id, id) then LevelUnder(fs, f.parent) + Level(fs, id) - Level(fs, f.id)
    else Level(fs, id)
  }

  lemma {:induction false} StoreLevels(fs: Repository, f: Folder, id: Id)
    requires Forest(fs) && ParentKnown(fs, f.parent) && !BelowSelf(fs, f.id, f.parent) && (id in fs || id == f.id)
    ensures Forest(fs[f.id := f]) && Level(fs[f.id := f], id) == LevelThen(fs, f, id)
    decreases |Above(Links(fs[f.id := f]), id)|
  {
    var fs' := fs[f.id := f];
    StoreKeepsForest(fs, f);
    if id != f.id {
      UpOne(fs, f.id, id);
    }
    if fs'[id].parent.Some? {
      var up := fs'[id].parent.value;
      Link(fs', up, id);
      AboveShrinks(Links(fs'), up, id);
      StoreLevels(fs, f, up);
      ReachSelf(Links(fs), f.id);
    }
  }

  /** Storing a folder keeps the nesting within a limit exactly when the folder and everything below it
      fit under its parent. */
  lemma StoreKeepsNesting(fs: Repository, f: Folder, n: nat)
    requires Forest(fs) && ParentKnown(fs, f.parent) && !BelowSelf(fs, f.id, f.parent) && NestedWithin(fs, n)
    ensures Forest(fs[f.id := f])
    ensures NestedWithin(fs[f.id := f], n) <==>
            && LevelUnder(fs, f.parent) <= n
            && (f.id in fs ==> forall x :: x in fs && Reach(Links(fs), f.id, x) ==>
                  LevelUnder(fs, f.parent) + Level(fs, x) - Level(fs, f.id) <= n)
  {
    var fs' := fs[f.id := f];
    StoreKeepsForest(fs, f);
    NestedByLevel(fs, n);
    NestedByLevel(fs', n);
    forall id | id in fs' ensures Level(fs', id) == LevelThen(fs, f, id) {
      StoreLevels(fs, f, id);
    }
    if NestedWithin(fs', n) {
      assert f.id in fs' && forall x :: x in fs ==> x in fs';
    }
  }

  /** With places right, a move keeps the nesting within the limit exactly when the folder and all that is
      below it fit; the code asks nothing. */
  lemma MoveKeepsNesting(fs: Repository, id: Id, parent: Option<Id>)
    requires Forest(fs) && PlacesRight(fs) && NestedWithin(fs, MAX_DEPTH) && MoveStep(fs, id, parent).reply.Done?
    ensures NestedWithin(MoveStep(fs, id, parent).folders, MAX_DEPTH) <==>
            forall x :: x in fs && Reach(Links(fs), id, x) ==> DepthUnder(fs, parent) + fs[x].depth - fs[id].depth <= MAX_DEPTH
  {
    StoreKeepsNesting(fs, Moved(fs, id, parent), MAX_DEPTH);
    AllDepths(fs);
    ReachSelf(Links(fs), id);
  }

  lemma AllDepths(fs: Repository)
    requires Forest(fs) && PlacesRight(fs)
    ensures forall x :: x in fs ==> fs[x].depth == Level(fs, x)
  {
    forall x | x in fs ensures fs[x].depth == Level(fs, x) {
      DepthIsLevel(fs, x);
    }
  }

  /** Creating under a new identifier keeps the nesting within the limit exactly when the parent's level
      is below it; its stored depth, which the code looks at, says so when places are right. */
  lemma CreateKeepsNesting(fs: Repository, f: Folder, freshId: Id)
    requires Forest(fs) && NestedWithin(fs, MAX_DEPTH) && Named(f, freshId).id !in fs
    requires CreateStep(fs, f, freshId).reply.Done?
    ensures NestedWithin(CreateStep(fs, f, freshId).folders, MAX_DEPTH) <==> LevelUnder(fs, f.parent) <= MAX_DEPTH
    ensures PlacesRight(fs) ==> NestedWithin(CreateStep(fs, f, freshId).folders, MAX_DEPTH)
  {
    var n := Named(f, freshId);
    FreshNeverTangles(fs, f, freshId);
    StoreKeepsNesting(fs, n.(path := PathUnder(fs, n.parent, n.name), depth := DepthUnder(fs, n.parent)), MAX_DEPTH);
    if PlacesRight(fs) {
      AllDepths(fs);
    }
  }

  /** A move leaves the depths below the folder stale: a later create there is let through by the depth
      the parent had before, and exceeds the limit exactly when the parent has come to it. */
  lemma CreateAfterMove(fs: Repository, id: Id, parent: Option<Id>, x: Id, f: Folder, freshId: Id)
    requires Forest(fs) && PlacesRight(fs) && NestedWithin(fs, MAX_DEPTH) && MoveStep(fs, id, parent).reply.Done?
    requires NestedWithin(MoveStep(fs, id, parent).folders, MAX_DEPTH)
    requires x in fs && x != id && Reach(Links(fs), id, x) && Named(f, freshId).id !in fs && f.parent == Some(x)
    ensures var create := CreateStep(MoveStep(fs, id, parent).folders, f, freshId);
            && (create.reply.Done? <==> fs[x].depth < MAX_DEPTH)
            && (NestedWithin(create.folders, MAX_DEPTH) <==>
                  fs[x].depth == MAX_DEPTH || DepthUnder(fs, parent) + fs[x].depth - fs[id].depth < MAX_DEPTH)
  {
    var fs' := MoveStep(fs, id, parent).folders;
    AllDepths(fs);
    NestedByLevel(fs, MAX_DEPTH);
    StoreLevels(fs, Moved(fs, id, parent), x);
    if fs[x].depth < MAX_DEPTH {
      CreateKeepsNesting(fs', f, freshId);
    }
  }

  /** An operation that meets the conditions above. */
  ghost predicate Steady(fs: Repository, op: Op) {
    match op
    case Create(f, freshId) => Named(f, freshId).id !in fs
    case Update(f) =>
      && f.id in fs && f.parent == fs[f.id].parent && f.depth == fs[f.id].depth
      && (HasChildren(fs, f.id) ==> f.name == fs[f.id].name)
    case Move(id, parent) =>
      MoveStep(fs, id, parent).reply.Done? ==>
        DepthUnder(fs, parent) <= MAX_DEPTH && (HasChildren(fs, id) ==> SamePlace(fs, Moved(fs, id, parent)))
    case Delete(_, _) => true
  }

  ghost predicate SteadyRun(ops: seq<Op>) {
    |ops| > 0 ==> SteadyRun(ops[..|ops| - 1]) && Steady(Run(ops[..|ops| - 1]), ops[|ops| - 1])
  }

  ghost predicate AllRight(fs: Repository) {
    Forest(fs) && PlacesRight(fs) && NestedWithin(fs, MAX_DEPTH)
  }

  /** With places right, the stored depths tell. */
  lemma NestedByDepth(fs: Repository)
    requires Forest(fs) && PlacesRight(fs)
    ensures NestedWithin(fs, MAX_DEPTH) <==> forall id :: id in fs ==> fs[id].depth <= MAX_DEPTH
  {
    AllDepths(fs);
    NestedByLevel(fs, MAX_DEPTH);
  }

  lemma StoreStaysRight(fs: Repository, f: Folder)
    requires AllRight(fs) && ParentKnown(fs, f.parent) && !BelowSelf(fs, f.id, f.parent) && f.depth <= MAX_DEPTH
    requires f.path == PathUnder(fs, f.parent, f.name) && f.depth == DepthUnder(fs, f.parent)
    requires HasChildren(fs, f.id) ==> SamePlace(fs, f)
    ensures AllRight(fs[f.id := f])
  {
    StoreKeepsForest(fs, f);
    StoreKeepsPlaces(fs, f);
    NestedByDepth(fs);
    NestedByDepth(fs[f.id := f]);
  }

  lemma StepStaysRight(fs: Repository, op: Op)
    requires AllRight(fs) && Steady(fs, op)
    ensures AllRight(Step(fs, op).folders)
  {
    if Step(fs, op).reply.Done? {
      match op {
        case Create(f, freshId) =>
          FreshNeverTangles(fs, f, freshId);
          CreateKeepsPlaces(fs, f, freshId);
          CreateKeepsNesting(fs, f, freshId);
          StepKeepsForest(fs, op);
        case Update(f) =>
          OwnParentNotBelow(fs, f.id);
          NestedByDepth(fs);
          assert InPlace(fs, f.id);
          StoreStaysRight(fs, f.(path := PathUnder(fs, f.parent, f.name)));
        case Move(id, parent) => StoreStaysRight(fs, Moved(fs, id, parent));
        case Delete(id, recursive) =>
          RemoveStaysRight(fs, id, recursive);
      }
    }
  }

  lemma OwnParentNotBelow(fs: Repository, id: Id)
    requires Forest(fs) && id in fs
    ensures !BelowSelf(fs, id, fs[id].parent)
  {
    if fs[id].parent.Some? {
      Link(fs, fs[id].parent.value, id);
      AcyclicByEdges(Links(fs));
    }
  }

  lemma RemoveStaysRight(fs: Repository, id: Id, recursive: bool)
    requires AllRight(fs) && DeleteStep(fs, id, recursive).reply.Done?
    ensures AllRight(DeleteStep(fs, id, recursive).folders)
  {
    if !recursive {
      PruneChildren(fs, id, {});
      PruneNothing(fs);
    }
    PruneKeepsForest(fs, {id});
    NestedByDepth(fs);
    NestedByDepth(Pruned(fs, {id}));
  }

  /** Over every run of such operations the links stay a forest, all paths and depths are right, and
      nothing is nested deeper than the limit. */
  lemma {:induction false} RunStaysRight(ops: seq<Op>)
    requires SteadyRun(ops)
    ensures AllRight(Run(ops))
  {
    if |ops| == 0 {
      assert Links(map[]) == {};
      RankedIsAcyclic({}, map[]);
      NestedByDepth(map[]);
    } else {
      RunStaysRight(ops[..|ops| - 1]);
      StepStaysRight(Run(ops[..|ops| - 1]), ops[|ops| - 1]);
    }
  }

  // ---- The service as it is written ----

  class FolderService {
    var folders: Repository
    const maxDepth := MAX_DEPTH

    constructor ()
      ensures folders == map[]
    {
      folders := map[];
    }

    method CreateFolder(folder: Folder, freshId: Id) returns (reply: Reply)
      modifies this
      ensures Changed(folders, reply) == CreateStep(old(folders), folder, freshId)
      ensures reply == if folder.parent.Some? && folder.parent.value !in old(folders) then ParentNotFound
                       else if folder.parent.Some? && old(folders)[folder.parent.value].depth >= 10 then TooDeep
                       else Done
      ensures reply.Done? ==> folders.Keys == old(folders).Keys + {if folder.id == NO_ID then freshId else folder.id}
    {
      var f := folder;
      if f.id == NO_ID {
        f := f.(id := freshId);
      }
      if f.parent.Some? {
        if f.parent.value !in folders {
          return ParentNotFound;
        }
        var parent := folders[f.parent.value];
        f := f.(path := parent.path + "/" + f.name);
        f := f.(depth := parent.depth + 1);
        if f.depth > maxDepth {
          return TooDeep;
        }
      } else {
        f := f.(path := "/" + f.name);
        f := f.(depth := 0);
      }
      folders := folders[f.id := f];
      return Done;
    }

    method UpdateFolder(folder: Folder) returns (reply: Reply)
      modifies this
      ensures Changed(folders, reply) == UpdateStep(old(folders), folder)
      ensures reply == if folder.parent.Some? && folder.parent.value !in old(folders) then ParentNotFound else Done
    {
      var f := folder;
      if f.parent.Some? {
        if f.parent.value !in folders {
          return ParentNotFound;
        }
        f := f.(path := folders[f.parent.value].path + "/" + f.name);
      } else {
        f := f.(path := "/" + f.name);
      }
      folders := folders[f.id := f];
      return Done;
    }

    /** The walk up from the new parent meets the folder exactly when the new parent is the folder or
        below it.  Only a cycle of parent links above the new parent, with the folder not on it, would
        keep it from ending. */
    method MoveFolder(folderID: Id, newParent: Option<Id>) returns (reply: Reply)
      requires Keyed(folders)
      requires folderID in folders && newParent.Some? && !BelowSelf(folders, folderID, newParent) ==>
                 NoCycleTo(Links(folders), newParent.value)
      modifies this
      ensures Changed(folders, reply) == MoveStep(old(folders), folderID, newParent)
      ensures reply == if folderID !in old(folders) then NotFound
                       else if newParent.Some? && Reach(Links(old(folders)), folderID, newParent.value) then Circular
                       else if newParent.Some? && newParent.value !in old(folders) then ParentNotFound
                       else Done
    {
      if folderID !in folders {
        return NotFound;
      }
      ghost var e := Links(folders);
      ghost var below := BelowSelf(folders, folderID, newParent);
      ghost var p: seq<Id> := [];
      if below {
        p :| PathBetween(e, folderID, newParent.value, p);
      }
      var current := newParent;
      while current.Some?
        invariant folders == old(folders)
        invariant below ==> current.Some? && PathBetween(e, folderID, current.value, p)
        invariant !below && current.Some? ==> NoCycleTo(e, current.value) && !Reach(e, folderID, current.value)
        decreases current.Some?, if below then |p| else if current.Some? then |Above(e, current.value)| else 0
      {
        if current.value == folderID {
          ReachSelf(e, folderID);
          return Circular;
        }
        UpOne(folders, folderID, current.value);
        assert below ==> Reach(e, folderID, current.value);
        if current.value !in folders {
          break;
        }
        var parent := folders[current.value].parent;
        if below {
          StepBack(folders, folderID, current.value, p);
          p := p[..|p| - 1];
        } else if parent.Some? {
          Link(folders, parent.value, current.value);
          NoCycleBack(e, parent.value, current.value);
          AboveShrinksAt(e, parent.value, current.value);
        }
        current := parent;
      }
      if newParent.Some? && newParent.value !in folders {
        return ParentNotFound;
      }
      var folder := folders[folderID];
      if newParent.Some? {
        var parent := folders[newParent.value];
        folder := folder.(parent := newParent, path := parent.path + "/" + folder.name, depth := parent.depth + 1);
      } else {
        folder := folder.(parent := None, path := "/" + folder.name, depth := 0);
      }
      folders := folders[folderID := folder];
      return Done;
    }

    method ListByParent(parent: Id) returns (children: seq<Id>)
      ensures forall c :: c in children <==> c in folders && folders[c].parent == Some(parent)
    {
      children := [];
      var left := folders.Keys;
      while left != {}
        invariant left <= folders.Keys
        invariant forall c :: c in children <==> c in folders && c !in left && folders[c].parent == Some(parent)
        decreases left
      {
        var c :| c in left;
        if folders[c].parent == Some(parent) {
          children := children + [c];
        }
        left := left - {c};
      }
    }

    /** A recursive delete removes the folder and everything below it, and nothing else.  Only a cycle
        of parent links below the folder would keep it from ending. */
    method DeleteFolder(id: Id, recursive: bool) returns (reply: Reply)
      requires recursive ==> NoCycleFrom(Links(folders), id)
      modifies this
      ensures Changed(folders, reply) == DeleteStep(old(folders), id, recursive)
      ensures reply == if !recursive && (exists c :: c in old(folders) && old(folders)[c].parent == Some(id)) then HasSubfolders else Done
      decreases Below(Links(folders), id)
    {
      ghost var fs := folders;
      var children := ListByParent(id);
      if recursive {
        var i := 0;
        ghost var done: set<Id> := {};
        PruneNothing(fs);
        while i < |children|
          invariant 0 <= i <= |children| && done == Members(children[..i])
          invariant folders == Pruned(fs, done)
        {
          ReadyToDescend(fs, done, id, children[i]);
          var r := DeleteFolder(children[i], true);
          PruneTwice(fs, done, children[i]);
          done := done + {children[i]};
          OneMoreMember(children, i);
          i := i + 1;
        }
        assert children[..i] == children;
        PruneChildren(fs, id, done);
      } else if |children| > 0 {
        assert children[0] in children;
        return HasSubfolders;
      }
      folders := folders - {id};
      return Done;
    }
  }

  /** The last step of a path into a folder comes from its parent. */
  lemma StepBack(fs: Repository, a: Id, x: Id, p: seq<Id>)
    requires PathBetween(Links(fs), a, x, p) && a != x
    ensures x in fs && fs[x].parent.Some? && PathBetween(Links(fs), a, fs[x].parent.value, p[..|p| - 1])
  {
    Link(fs, p[|p| - 2], x);
  }

  lemma ReadyToDescend(fs: Repository, done: set<Id>, id: Id, child: Id)
    requires NoCycleFrom(Links(fs), id) && child in fs && fs[child].parent == Some(id)
    ensures NoCycleFrom(Links(Pruned(fs, done)), child) && Below(Links(Pruned(fs, done)), child) < Below(Links(fs), id)
  {
    PrunedLinks(fs, done);
    Link(fs, id, child);
    NoCycleOnward(Links(fs), id, child);
    NoCycleSubset(Links(Pruned(fs, done)), Links(fs), child);
    BelowShrinksAt(Links(fs), id, child);
    BelowMonotone(Links(Pruned(fs, done)), Links(fs), child);
  }

  ghost function Members(ids: seq<Id>): set<Id> {
    set c | c in ids
  }

  lemma OneMoreMember(ids: seq<Id>, i: nat)
    requires i < |ids|
    ensures Members(ids[..i + 1]) == Members(ids[..i]) + {ids[i]}
  {
    assert ids[..i + 1] == ids[..i] + [ids[i]];
  }

  /** What reaches a folder from elsewhere comes through its parent. */
  lemma UpOne(fs: Repository, a: Id, x: Id)
    requires a != x
    ensures Reach(Links(fs), a, x) <==> x in fs && fs[x].parent.Some? && Reach(Links(fs), a, fs[x].parent.value)
  {
    var e := Links(fs);
    if Reach(e, a, x) {
      var p := LastStep(e, a, x);
      Link(fs, p, x);
    }
    if x in fs && fs[x].parent.Some? && Reach(e, a, fs[x].parent.value) {
      Link(fs, fs[x].parent.value, x);
      ReachSnoc(e, a, fs[x].parent.value, x);
    }
  }
}
