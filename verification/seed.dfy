/**
 * The seed workspace as the panes present it on a first visit: the library
 * tree, the first selection, the notebook list and its previews, and the
 * reach of a cascade delete.
 */
module Seed {
  import opened Wrappers
  import opened Types
  import opened Json
  import Constants
  import Library
  import Workspace
  import Notebook
  import Forest

  /** Two projects, the second nested under the first by a non-empty id, with distinct ids. */
  predicate NestedPair(ps: seq<Project>) {
    |ps| == 2 && ps[0].id != "" && ps[0].id != ps[1].id && ps[0].parentId.None? && ps[1].parentId == Some(ps[0].id)
  }

  /** Such a pair shows as one root holding the other. */
  lemma PairTree(ps: seq<Project>)
    requires NestedPair(ps)
    ensures Library.Placed(ps, 2, None) == [0]
    ensures Library.Placed(ps, 2, Some(0)) == [1]
    ensures Library.Placed(ps, 2, Some(1)) == []
  {
    Library.LastWithIdSpec(ps, ps[0].id);
    Library.LastWithIdSpec(ps, ps[1].id);
    assert Library.ParentNode(ps, 0).None?;
    assert Library.LastWithId(ps, ps[0].id) == Some(0);
    assert Library.ParentNode(ps, 1) == Some(0);
    assert Library.LastWithId(ps, ps[1].id) == Some(1);
    assert Library.NodeOf(ps, 0) == 0 && Library.NodeOf(ps, 1) == 1;
    assert Library.Placed(ps, 1, None) == [0];
    assert Library.Placed(ps, 1, Some(0)) == [];
    assert Library.Placed(ps, 1, Some(1)) == [];
  }

  /** Deleting the outer project of such a pair takes both. */
  lemma PairClosure(ps: seq<Project>)
    requires NestedPair(ps)
    ensures Forest.Closure(ps, ps[0].id) == {ps[0].id, ps[1].id}
  {
    var c := Forest.Closure(ps, ps[0].id);
    assert ps[1].id in c;
    forall x | x in ProjectIds(ps) ensures x == ps[0].id || x == ps[1].id {
      var k :| 0 <= k < |ps| && ps[k].id == x;
    }
  }

  /** The seed's two projects form such a pair. */
  /** The source's own recursion, two levels deep, finds both projects of such a pair. */
  lemma PairSourceClosure(ps: seq<Project>)
    requires NestedPair(ps)
    ensures Forest.SourceClosure(ps, ps[0].id, 2) == Some({ps[0].id, ps[1].id})
  {
    var rank := (x: Id) => if x == ps[0].id then 1 else 0;
    assert Forest.Ranked(ps, rank);
    Forest.SourceClosureOnForest(ps, ps[0].id, 2, rank);
    PairClosure(ps);
  }

  lemma SeedIsNestedPair(t1: int, t2: int)
    ensures NestedPair(Constants.InitialData(t1, t2))
  {
  }

  /** The library shows the welcome project as the only root, with the snippets project under it. */
  lemma SeedTree(t1: int, t2: int)
    ensures Library.Placed(Constants.InitialData(t1, t2), 2, None) == [0]
    ensures Library.Placed(Constants.InitialData(t1, t2), 2, Some(0)) == [1]
    ensures Library.Placed(Constants.InitialData(t1, t2), 2, Some(1)) == []
  {
    SeedIsNestedPair(t1, t2);
    PairTree(Constants.InitialData(t1, t2));
  }

  /**
   * On a desktop the first render opens the welcome project and its guide;
   * on a narrow screen no canvas is opened.
   */
  lemma SeedOpensGuide(t1: int, t2: int)
    ensures var ps := Constants.InitialData(t1, t2);
      Workspace.SelectionEffect(ps, Workspace.InitialSelection(ps), true) ==
        Workspace.Selection(Some("proj_1"), Some("canvas_1"))
    ensures var ps := Constants.InitialData(t1, t2);
      Workspace.SelectionEffect(ps, Workspace.InitialSelection(ps), false).activeCanvas.None?
  {
    var ps := Constants.InitialData(t1, t2);
    assert FindProject(ps, "proj_1") == Some(0);
  }

  /** A list holding one pinned and one unpinned canvas, in either order, splits into the two. */
  lemma SplitPair(cs: seq<Canvas>, a: Canvas, b: Canvas)
    requires Pinned(a) && !Pinned(b)
    requires multiset(cs) == multiset([a, b])
    ensures Notebook.Split(cs).pinned == [a] && Notebook.Split(cs).unpinned == [b]
  {
    assert |cs| == |multiset(cs)| == 2;
    assert a in multiset(cs) && b in multiset(cs);
    assert cs == [a, b] || cs == [b, a];
    if cs == [a, b] {
      Notebook.SplitAround([], a, [b]);
    } else {
      Notebook.SplitAround([], b, [a]);
    }
  }

  /** With no search, the pinned guide leads and the playground follows, whichever is newer. */
  lemma SeedNotebook(t1: int, t2: int, parse: string -> Option<Json>)
    ensures var cs := Constants.InitialData(t1, t2)[0].canvases;
      var shown := Notebook.Split(Notebook.SearchFilter(Notebook.SortNewestFirst(cs), "", parse));
      shown.pinned == [cs[0]] && shown.unpinned == [cs[1]]
  {
    var cs := Constants.InitialData(t1, t2)[0].canvases;
    var guide, playground := cs[0], cs[1];
    assert cs == [guide, playground];
    SplitPair(Notebook.SortNewestFirst(cs), guide, playground);
  }

  /** The playground previews as a playground. */
  lemma SeedPlaygroundPreview(t1: int, t2: int, parse: string -> Option<Json>)
    ensures Notebook.PreviewText(Constants.InitialData(t1, t2)[0].canvases[1], parse) == Notebook.PlaygroundPreview
  {
  }

  /** Deleting the welcome project takes the snippets project with it. */
  lemma SeedDeleteReach(t1: int, t2: int)
    ensures Forest.Closure(Constants.InitialData(t1, t2), "proj_1") == {"proj_1", "proj_2"}
  {
    SeedIsNestedPair(t1, t2);
    PairClosure(Constants.InitialData(t1, t2));
  }
}
