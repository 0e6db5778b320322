// internal/workflow/features/folders.go: building the folder tree from a flat list.

module FolderTree {
  import opened Reachability
  import opened Workflow
  import opened Folders

  function ListedIds(fs: seq<Folder>): set<Id> {
    set f | f in fs :: f.id
  }

  function LinksIn(fs: seq<Folder>): Edges {
    set f | f in fs && f.parent.Some? :: (f.parent.value, f.id)
  }

  predicate DistinctFolders(fs: seq<Folder>) {
    forall i, j :: 0 <= i < j < |fs| ==> fs[i].id != fs[j].id
  }

  /** The folders with this parent (or without one), in list order. */
  function ChildrenOf(fs: seq<Folder>, parent: Option<Id>): seq<Id> {
    if |fs| == 0 then []
    else ChildrenOf(fs[..|fs| - 1], parent) + if fs[|fs| - 1].parent == parent then [fs[|fs| - 1].id] else []
  }

  /** buildTree's nodes: the child list of every listed folder, and that of the root. */
  datatype Tree = Tree(root: seq<Id>, children: map<Id, seq<Id>>)

  predicate Grown(fs: seq<Folder>, t: Tree, n: nat)
    requires n <= |fs|
  {
    && t.children.Keys == ListedIds(fs) && t.root == ChildrenOf(fs[..n], None)
    && forall id :: id in t.children ==> t.children[id] == ChildrenOf(fs[..n], Some(id))
  }

  /** The tree has a node for every listed folder, and each listed folder hangs under its parent. */
  predicate Built(fs: seq<Folder>, t: Tree) {
    && t.children.Keys == ListedIds(fs) && t.root == ChildrenOf(fs, None)
    && forall id :: id in t.children ==> t.children[id] == ChildrenOf(fs, Some(id))
  }

  method BuildTree(fs: seq<Folder>) returns (t: Tree)
    ensures Built(fs, t)
  {
    var folderMap: map<Id, seq<Id>> := map[];
    for i := 0 to |fs|
      invariant folderMap.Keys == ListedIds(fs[..i])
      invariant forall id :: id in folderMap ==> folderMap[id] == []
    {
      assert fs[..i + 1] == fs[..i] + [fs[i]];
      folderMap := folderMap[fs[i].id := []];
    }
    assert fs[..|fs|] == fs;
    var root: seq<Id> := [];
    for i := 0 to |fs|
      invariant Grown(fs, Tree(root, folderMap), i)
    {
      var f := fs[i];
      assert fs[..i + 1][..i] == fs[..i];
      if f.parent.None? {
        root := root + [f.id];
      } else if f.parent.value in folderMap {
        folderMap := folderMap[f.parent.value := folderMap[f.parent.value] + [f.id]];
      }
    }
    t := Tree(root, folderMap);
  }

  // ---- The list as a graph ----

  lemma LinkIn(fs: seq<Folder>, a: Id, b: Id)
    ensures (a, b) in LinksIn(fs) <==> exists i :: 0 <= i < |fs| && fs[i].id == b && fs[i].parent == Some(a)
  {
    if (a, b) in LinksIn(fs) {
      var f :| f in fs && f.parent.Some? && (f.parent.value, f.id) == (a, b);
      var i :| 0 <= i < |fs| && fs[i] == f;
    }
    if i :| 0 <= i < |fs| && fs[i].id == b && fs[i].parent == Some(a) {
      assert fs[i] in fs;
    }
  }

  lemma OneParent(fs: seq<Folder>, a: Id, b: Id, x: Id)
    requires DistinctFolders(fs) && (a, x) in LinksIn(fs) && (b, x) in LinksIn(fs)
    ensures a == b
  {
    LinkIn(fs, a, x);
    LinkIn(fs, b, x);
  }

  lemma {:induction false} ChildMembers(fs: seq<Folder>, parent: Option<Id>, x: Id)
    ensures x in ChildrenOf(fs, parent) <==> exists i :: 0 <= i < |fs| && fs[i].id == x && fs[i].parent == parent
  {
    if |fs| > 0 {
      var front := fs[..|fs| - 1];
      ChildMembers(front, parent, x);
      if i :| 0 <= i < |fs| && fs[i].id == x && fs[i].parent == parent {
        assert i < |front| ==> front[i] == fs[i];
      }
    }
  }

  lemma {:induction false} ChildrenOnce(fs: seq<Folder>, parent: Option<Id>)
    requires DistinctFolders(fs)
    ensures Once(ChildrenOf(fs, parent))
  {
    if |fs| > 0 {
      var front := fs[..|fs| - 1];
      ChildrenOnce(front, parent);
      ChildMembers(front, parent, fs[|fs| - 1].id);
    }
  }

  /** Two folders above the same one are above one another. */
  lemma {:induction false} OneChain(fs: seq<Folder>, a: Id, b: Id, x: Id)
    requires DistinctFolders(fs) && Acyclic(LinksIn(fs)) && Reach(LinksIn(fs), a, x) && Reach(LinksIn(fs), b, x)
    ensures Reach(LinksIn(fs), a, b) || Reach(LinksIn(fs), b, a)
    decreases |Above(LinksIn(fs), x)|
  {
    var e := LinksIn(fs);
    if a != x && b != x {
      var c := LastStep(e, a, x);
      var d := LastStep(e, b, x);
      OneParent(fs, c, d, x);
      AboveShrinks(e, c, x);
      OneChain(fs, a, b, c);
    }
  }

  /** Nothing is below two of these folders. */
  ghost predicate Apart(e: Edges, ids: seq<Id>) {
    Once(ids) && forall a, b, x {:trigger Reach(e, a, x), Reach(e, b, x)} ::
      a in ids && b in ids && a != b && Reach(e, a, x) ==> !Reach(e, b, x)
  }

  lemma NotAboveSibling(fs: seq<Folder>, parent: Option<Id>, a: Id, b: Id)
    requires DistinctFolders(fs) && Acyclic(LinksIn(fs)) && a != b
    requires a in ChildrenOf(fs, parent) && b in ChildrenOf(fs, parent)
    ensures !Reach(LinksIn(fs), a, b)
  {
    var e := LinksIn(fs);
    if Reach(e, a, b) {
      var c := LastStep(e, a, b);
      LinkIn(fs, c, b);
      ChildMembers(fs, parent, b);
      ChildMembers(fs, parent, a);
      assert parent == Some(c);
      LinkIn(fs, c, a);
      AcyclicByEdges(e);
    }
  }

  lemma SiblingsApart(fs: seq<Folder>, parent: Option<Id>)
    requires DistinctFolders(fs) && Acyclic(LinksIn(fs))
    ensures Apart(LinksIn(fs), ChildrenOf(fs, parent))
  {
    var e, ids := LinksIn(fs), ChildrenOf(fs, parent);
    ChildrenOnce(fs, parent);
    forall a, b, x | a in ids && b in ids && a != b && Reach(e, a, x) ensures !Reach(e, b, x) {
      if Reach(e, b, x) {
        OneChain(fs, a, b, x);
        NotAboveSibling(fs, parent, a, b);
        NotAboveSibling(fs, parent, b, a);
      }
    }
  }

  // ---- The tree, read from the top ----

  function ChildrenIn(t: Tree, id: Id): seq<Id> {
    if id in t.children then t.children[id] else []
  }

  ghost function TreeLinks(t: Tree): Edges {
    set id, c | id in t.children && c in t.children[id] :: (id, c)
  }

  lemma ChildrenBelow(t: Tree, id: Id)
    requires Acyclic(TreeLinks(t))
    ensures forall c :: c in ChildrenIn(t, id) ==>
              (id, c) in TreeLinks(t) && |Below(TreeLinks(t), c)| < |Below(TreeLinks(t), id)|
  {
    forall c | c in ChildrenIn(t, id)
      ensures (id, c) in TreeLinks(t) && |Below(TreeLinks(t), c)| < |Below(TreeLinks(t), id)|
    {
      BelowShrinks(TreeLinks(t), id, c);
    }
  }

  /** Every folder met when reading these nodes' subtrees top down. */
  ghost function Reading(t: Tree, ids: seq<Id>, bound: nat): seq<Id>
    requires Acyclic(TreeLinks(t)) && forall c :: c in ids ==> |Below(TreeLinks(t), c)| < bound
    decreases bound, |ids|
  {
    if |ids| == 0 then []
    else
      var id := ids[|ids| - 1];
      ChildrenBelow(t, id);
      Reading(t, ids[..|ids| - 1], bound) + [id] + Reading(t, ChildrenIn(t, id), |Below(TreeLinks(t), id)|)
  }

  ghost predicate UnderAny(e: Edges, ids: seq<Id>, x: Id) {
    exists r :: r in ids && Reach(e, r, x)
  }

  lemma UnderOne(t: Tree, id: Id, x: Id)
    requires Acyclic(TreeLinks(t))
    ensures Reach(TreeLinks(t), id, x) <==> id == x || UnderAny(TreeLinks(t), ChildrenIn(t, id), x)
    ensures !UnderAny(TreeLinks(t), ChildrenIn(t, id), id)
  {
    var e := TreeLinks(t);
    ReachSelf(e, id);
    AcyclicByEdges(e);
    ChildrenBelow(t, id);
    if Reach(e, id, x) && id != x {
      var c := FirstStep(e, id, x);
      assert c in ChildrenIn(t, id);
      assert UnderAny(e, ChildrenIn(t, id), x);
    }
    if UnderAny(e, ChildrenIn(t, id), x) {
      var c :| c in ChildrenIn(t, id) && Reach(e, c, x);
      ReachCons(e, id, c, x);
    }
  }

  lemma FrontApart(e: Edges, ids: seq<Id>, x: Id)
    requires |ids| > 0 && Apart(e, ids)
    ensures Apart(e, ids[..|ids| - 1])
    ensures UnderAny(e, ids, x) <==> UnderAny(e, ids[..|ids| - 1], x) || Reach(e, ids[|ids| - 1], x)
    ensures !(UnderAny(e, ids[..|ids| - 1], x) && Reach(e, ids[|ids| - 1], x))
  {
    var front, last := ids[..|ids| - 1], ids[|ids| - 1];
    assert ids == front + [last];
    assert last !in front;
  }

  /** A link of the tree is one of the list, from a listed folder. */
  lemma TreeLink(fs: seq<Folder>, t: Tree, a: Id, b: Id)
    requires Built(fs, t)
    ensures (a, b) in TreeLinks(t) <==> (a, b) in LinksIn(fs) && a in ListedIds(fs)
  {
    ChildMembers(fs, Some(a), b);
    LinkIn(fs, a, b);
  }

  lemma TreeIsAcyclic(fs: seq<Folder>, t: Tree)
    requires Built(fs, t) && Acyclic(LinksIn(fs))
    ensures Acyclic(TreeLinks(t)) && TreeLinks(t) <= LinksIn(fs)
  {
    forall a, b | (a, b) in TreeLinks(t) ensures (a, b) in LinksIn(fs) {
      TreeLink(fs, t, a, b);
    }
    AcyclicSubset(TreeLinks(t), LinksIn(fs));
  }

  lemma ApartInTree(fs: seq<Folder>, t: Tree, parent: Option<Id>)
    requires Built(fs, t) && DistinctFolders(fs) && Acyclic(LinksIn(fs))
    ensures Apart(TreeLinks(t), ChildrenOf(fs, parent))
  {
    var e, f, ids := TreeLinks(t), LinksIn(fs), ChildrenOf(fs, parent);
    TreeIsAcyclic(fs, t);
    SiblingsApart(fs, parent);
    forall a, b, x | a in ids && b in ids && a != b && Reach(e, a, x) ensures !Reach(e, b, x) {
      ReachMonotone(e, f, a, x);
      if Reach(e, b, x) {
        ReachMonotone(e, f, b, x);
      }
    }
  }

  /** Reading subtrees that are apart meets each folder below them once, and no other. */
  lemma {:induction false} ReadingMeetsOnce(fs: seq<Folder>, t: Tree, ids: seq<Id>, bound: nat, x: Id)
    requires Built(fs, t) && DistinctFolders(fs) && Acyclic(LinksIn(fs)) && Acyclic(TreeLinks(t)) && Apart(TreeLinks(t), ids)
    requires forall c :: c in ids ==> |Below(TreeLinks(t), c)| < bound
    ensures multiset(Reading(t, ids, bound))[x] == if UnderAny(TreeLinks(t), ids, x) then 1 else 0
    decreases bound, |ids|
  {
    if |ids| > 0 {
      var e, front, id := TreeLinks(t), ids[..|ids| - 1], ids[|ids| - 1];
      FrontApart(e, ids, x);
      ReadingMeetsOnce(fs, t, front, bound, x);
      ChildrenBelow(t, id);
      if id in t.children {
        ApartInTree(fs, t, Some(id));
      }
      ReadingMeetsOnce(fs, t, ChildrenIn(t, id), |Below(e, id)|, x);
      UnderOne(t, id, x);
    }
  }

  ghost function Height(e: Edges, ids: seq<Id>): nat {
    if |ids| == 0 then 0
    else var front := Height(e, ids[..|ids| - 1]);
         if front <= |Below(e, ids[|ids| - 1])| then |Below(e, ids[|ids| - 1])| + 1 else front
  }

  lemma {:induction false} HeightBounds(e: Edges, ids: seq<Id>)
    ensures forall c :: c in ids ==> |Below(e, c)| < Height(e, ids)
  {
    if |ids| > 0 {
      HeightBounds(e, ids[..|ids| - 1]);
      assert ids == ids[..|ids| - 1] + [ids[|ids| - 1]];
    }
  }

  /** What a tree shows, read from its root. */
  ghost function Shown(t: Tree): seq<Id>
    requires Acyclic(TreeLinks(t))
  {
    HeightBounds(TreeLinks(t), t.root);
    Reading(t, t.root, Height(TreeLinks(t), t.root))
  }

  /** The chain of parents leads, inside the list, to a folder without a parent. */
  ghost predicate Rooted(fs: seq<Folder>, x: Id) {
    UnderAny(LinksIn(fs), ChildrenOf(fs, None), x)
  }

  predicate ParentsListed(fs: seq<Folder>) {
    forall f :: f in fs && f.parent.Some? ==> f.parent.value in ListedIds(fs)
  }

  lemma {:induction false} AllRooted(fs: seq<Folder>, x: Id)
    requires Acyclic(LinksIn(fs)) && ParentsListed(fs) && x in ListedIds(fs)
    ensures Rooted(fs, x)
    decreases |Above(LinksIn(fs), x)|
  {
    var e := LinksIn(fs);
    var f :| f in fs && f.id == x;
    var i :| 0 <= i < |fs| && fs[i] == f;
    if f.parent.None? {
      ChildMembers(fs, None, x);
      ReachSelf(e, x);
    } else {
      var p := f.parent.value;
      LinkIn(fs, p, x);
      AboveShrinks(e, p, x);
      AllRooted(fs, p);
      var r :| r in ChildrenOf(fs, None) && Reach(e, r, p);
      ReachSnoc(e, r, p, x);
    }
  }

  /** From a listed folder the tree reaches what the list's links reach. */
  lemma ReachInTree(fs: seq<Folder>, t: Tree, r: Id, x: Id)
    requires Built(fs, t) && r in ListedIds(fs) && Reach(LinksIn(fs), r, x)
    ensures Reach(TreeLinks(t), r, x)
  {
    var p :| PathBetween(LinksIn(fs), r, x, p);
    forall i | 0 <= i < |p| - 1 ensures (p[i], p[i + 1]) in TreeLinks(t) {
      if i > 0 {
        assert (p[i - 1], p[i]) in LinksIn(fs);
        LinkIn(fs, p[i - 1], p[i]);
      }
      TreeLink(fs, t, p[i], p[i + 1]);
    }
    assert PathBetween(TreeLinks(t), r, x, p);
  }

  lemma RootedIsListed(fs: seq<Folder>, t: Tree, x: Id)
    requires Built(fs, t) && Acyclic(LinksIn(fs)) && Rooted(fs, x)
    ensures x in ListedIds(fs) && UnderAny(TreeLinks(t), t.root, x)
  {
    var r :| r in ChildrenOf(fs, None) && Reach(LinksIn(fs), r, x);
    ChildMembers(fs, None, r);
    if r != x {
      var c := LastStep(LinksIn(fs), r, x);
      LinkIn(fs, c, x);
    }
    ReachInTree(fs, t, r, x);
  }

  /** In the tree built from a list every folder whose chain of parents is listed appears exactly once,
      and no other appears; if every parent is listed, that is every folder. */
  lemma TreeShowsEachOnce(fs: seq<Folder>, t: Tree, x: Id)
    requires Built(fs, t) && DistinctFolders(fs) && Acyclic(LinksIn(fs))
    ensures Acyclic(TreeLinks(t)) && multiset(Shown(t))[x] == if Rooted(fs, x) then 1 else 0
    ensures ParentsListed(fs) ==> (Rooted(fs, x) <==> x in ListedIds(fs))
  {
    var e := TreeLinks(t);
    TreeIsAcyclic(fs, t);
    HeightBounds(e, t.root);
    ApartInTree(fs, t, None);
    ReadingMeetsOnce(fs, t, t.root, Height(e, t.root), x);
    if UnderAny(e, t.root, x) {
      var r :| r in t.root && Reach(e, r, x);
      ReachMonotone(e, LinksIn(fs), r, x);
    }
    if Rooted(fs, x) {
      RootedIsListed(fs, t, x);
    }
    if ParentsListed(fs) && x in ListedIds(fs) {
      AllRooted(fs, x);
    }
  }

  /** The list holds every folder of the repository, once. */
  predicate Lists(fs: seq<Folder>, repo: Repository) {
    && DistinctFolders(fs)
    && (forall id :: id in repo ==> repo[id] in fs)
    && (forall f :: f in fs ==> f.id in repo && repo[f.id] == f)
  }

  /** The tree built from a whole repository shows each of its folders exactly once. */
  lemma RepositoryShown(fs: seq<Folder>, t: Tree, repo: Repository)
    requires Forest(repo) && Lists(fs, repo) && Built(fs, t)
    ensures Acyclic(TreeLinks(t))
    ensures forall x :: multiset(Shown(t))[x] == if x in repo then 1 else 0
  {
    forall a, b | (a, b) in LinksIn(fs) ensures (a, b) in Links(repo) {
      LinkIn(fs, a, b);
      Link(repo, a, b);
    }
    AcyclicSubset(LinksIn(fs), Links(repo));
    TreeIsAcyclic(fs, t);
    forall x ensures multiset(Shown(t))[x] == if x in repo then 1 else 0 {
      TreeShowsEachOnce(fs, t, x);
      ParentsAreListed(fs, repo);
      if x in repo {
        assert repo[x] in fs && repo[x].id == x;
      }
    }
  }

  lemma ParentsAreListed(fs: seq<Folder>, repo: Repository)
    requires Forest(repo) && Lists(fs, repo)
    ensures ParentsListed(fs)
  {
    forall f | f in fs && f.parent.Some? ensures f.parent.value in ListedIds(fs) {
      assert f.parent.value in repo && repo[f.parent.value] in fs;
    }
  }
}
