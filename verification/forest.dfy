/**
 * The project forest: projects in one flat list, linked to their parents by id.
 * Cascade delete, subtree export, project creation and renaming.
 */
module Forest {
  import opened Wrappers
  import opened Types
  import Seqs

  /** `s` contains every project whose parent link names a member of `s`. */
  ghost predicate ClosedUnder(ps: seq<Project>, s: set<Id>) {
    forall k :: 0 <= k < |ps| && ps[k].parentId.Some? && ps[k].parentId.value in s ==> ps[k].id in s
  }

  /** The ids of the projects whose parent link names a member of `s`. */
  function ChildIds(ps: seq<Project>, s: set<Id>): (r: set<Id>)
    ensures r <= ProjectIds(ps)
    ensures forall k :: 0 <= k < |ps| && ps[k].parentId.Some? && ps[k].parentId.value in s ==> ps[k].id in r
  {
    set k | 0 <= k < |ps| && ps[k].parentId.Some? && ps[k].parentId.value in s :: ps[k].id
  }

  /** `s` grown by parent links until nothing more can be added. */
  function Saturate(ps: seq<Project>, s: set<Id>): (r: set<Id>)
    ensures s <= r <= s + ProjectIds(ps)
    ensures ClosedUnder(ps, r)
    decreases ProjectIds(ps) - s
  {
    var t := s + ChildIds(ps, s);
    if t <= s then s
    else
      assert exists x :: x in t && x !in s && x in ProjectIds(ps);
      Saturate(ps, t)
  }

  /** Saturation never leaves a closed set that it starts inside. */
  lemma {:induction false} SaturateLeast(ps: seq<Project>, s: set<Id>, bound: set<Id>)
    requires s <= bound && ClosedUnder(ps, bound)
    ensures Saturate(ps, s) <= bound
    decreases ProjectIds(ps) - s
  {
    var t := s + ChildIds(ps, s);
    if !(t <= s) {
      assert exists x :: x in t && x !in s && x in ProjectIds(ps);
      SaturateLeast(ps, t, bound);
    }
  }

  /**
   * The descendant closure of `root`: `root` plus, transitively, every
   * project whose parent is in the closure. This is the guarded traversal;
   * `SourceClosure` below is the source's unguarded recursion.
   */
  function Closure(ps: seq<Project>, root: Id): (c: set<Id>)
    ensures root in c
    ensures ClosedUnder(ps, c)
    ensures c <= ProjectIds(ps) + {root}
  {
    Saturate(ps, {root})
  }

  /** The closure is the least closed set holding the root. */
  lemma ClosureLeast(ps: seq<Project>, root: Id, bound: set<Id>)
    requires root in bound && ClosedUnder(ps, bound)
    ensures Closure(ps, root) <= bound
  {
    SaturateLeast(ps, {root}, bound);
  }

  /**
   * The source's `findChildren`: add `id`, then recurse into every project
   * whose parent is `id`, with no visited set. `fuel` bounds the recursion
   * depth; `None` means the recursion did not finish within it.
   */
  function SourceClosure(ps: seq<Project>, id: Id, fuel: nat): Option<set<Id>>
    decreases fuel, 0, 0
  {
    if fuel == 0 then None
    else
      match VisitChildren(ps, id, 0, fuel - 1)
      case None => None
      case Some(s) => Some({id} + s)
  }

  /** The `projects.forEach` loop of `findChildren`, from index `i` on. */
  function VisitChildren(ps: seq<Project>, id: Id, i: nat, fuel: nat): Option<set<Id>>
    requires i <= |ps|
    decreases fuel, 1, |ps| - i
  {
    if i == |ps| then Some({})
    else
      var here := if ps[i].parentId == Some(id) then SourceClosure(ps, ps[i].id, fuel) else Some({});
      match here
      case None => None
      case Some(a) =>
        match VisitChildren(ps, id, i + 1, fuel)
        case None => None
        case Some(b) => Some(a + b)
  }

  /** Whatever the unguarded recursion collects lies inside every closed set holding its start. */
  lemma {:induction false} SourceClosureWithin(ps: seq<Project>, id: Id, fuel: nat, bound: set<Id>)
    requires id in bound && ClosedUnder(ps, bound)
    ensures SourceClosure(ps, id, fuel).Some? ==> SourceClosure(ps, id, fuel).value <= bound
    decreases fuel, 0, 0
  {
    if fuel > 0 {
      VisitChildrenWithin(ps, id, 0, fuel - 1, bound);
    }
  }

  lemma {:induction false} VisitChildrenWithin(ps: seq<Project>, id: Id, i: nat, fuel: nat, bound: set<Id>)
    requires i <= |ps|
    requires id in bound && ClosedUnder(ps, bound)
    ensures VisitChildren(ps, id, i, fuel).Some? ==> VisitChildren(ps, id, i, fuel).value <= bound
    decreases fuel, 1, |ps| - i
  {
    if i < |ps| {
      if ps[i].parentId == Some(id) {
        SourceClosureWithin(ps, ps[i].id, fuel, bound);
      }
      VisitChildrenWithin(ps, id, i + 1, fuel, bound);
    }
  }

  /** Whatever the unguarded recursion collects holds its start and is closed. */
  lemma {:induction false} SourceClosureClosed(ps: seq<Project>, id: Id, fuel: nat)
    ensures SourceClosure(ps, id, fuel).Some? ==>
      id in SourceClosure(ps, id, fuel).value && ClosedUnder(ps, SourceClosure(ps, id, fuel).value)
    decreases fuel, 0, 0
  {
    if fuel > 0 {
      VisitChildrenClosed(ps, id, 0, fuel - 1);
    }
  }

  lemma {:induction false} VisitChildrenClosed(ps: seq<Project>, id: Id, i: nat, fuel: nat)
    requires i <= |ps|
    ensures VisitChildren(ps, id, i, fuel).Some? ==>
      && ClosedUnder(ps, VisitChildren(ps, id, i, fuel).value)
      && forall k :: i <= k < |ps| && ps[k].parentId == Some(id) ==> ps[k].id in VisitChildren(ps, id, i, fuel).value
    decreases fuel, 1, |ps| - i
  {
    if i < |ps| {
      if ps[i].parentId == Some(id) {
        SourceClosureClosed(ps, ps[i].id, fuel);
      }
      VisitChildrenClosed(ps, id, i + 1, fuel);
    }
  }

  /** When the source's recursion finishes, it computes exactly the guarded closure. */
  lemma SourceClosureAgrees(ps: seq<Project>, id: Id, fuel: nat)
    requires SourceClosure(ps, id, fuel).Some?
    ensures SourceClosure(ps, id, fuel).value == Closure(ps, id)
  {
    var r := SourceClosure(ps, id, fuel).value;
    SourceClosureClosed(ps, id, fuel);
    ClosureLeast(ps, id, r);
    SourceClosureWithin(ps, id, fuel, Closure(ps, id));
  }

  /**
   * `rank` witnesses that the parent links have no cycle: every project
   * ranks strictly below the parent it names.
   */
  predicate Ranked(ps: seq<Project>, rank: Id -> nat) {
    forall k :: 0 <= k < |ps| && ps[k].parentId.Some? ==> rank(ps[k].id) < rank(ps[k].parentId.value)
  }

  /** Without parent cycles the source's recursion finishes once it may go deeper than the start's rank. */
  lemma {:induction false} SourceClosureFinishes(ps: seq<Project>, id: Id, fuel: nat, rank: Id -> nat)
    requires Ranked(ps, rank) && fuel > rank(id)
    ensures SourceClosure(ps, id, fuel).Some?
    decreases fuel, 0, 0
  {
    VisitChildrenFinishes(ps, id, 0, fuel - 1, rank);
  }

  lemma {:induction false} VisitChildrenFinishes(ps: seq<Project>, id: Id, i: nat, fuel: nat, rank: Id -> nat)
    requires i <= |ps|
    requires Ranked(ps, rank) && fuel >= rank(id)
    ensures VisitChildren(ps, id, i, fuel).Some?
    decreases fuel, 1, |ps| - i
  {
    if i < |ps| {
      if ps[i].parentId == Some(id) {
        SourceClosureFinishes(ps, ps[i].id, fuel, rank);
      }
      VisitChildrenFinishes(ps, id, i + 1, fuel, rank);
    }
  }

  /** On a workspace without parent cycles the source's recursion returns exactly the guarded closure. */
  lemma SourceClosureOnForest(ps: seq<Project>, id: Id, fuel: nat, rank: Id -> nat)
    requires Ranked(ps, rank) && fuel > rank(id)
    ensures SourceClosure(ps, id, fuel) == Some(Closure(ps, id))
  {
    SourceClosureFinishes(ps, id, fuel, rank);
    SourceClosureAgrees(ps, id, fuel);
  }

  /** Two projects that are each other's parent. */
  const TwoCycle: seq<Project> := [Project("a", "A", [], Some("b")), Project("b", "B", [], Some("a"))]

  /** On a parent cycle the source's recursion never finishes, whatever the depth allowed. */
  lemma {:induction false} SourceClosureDivergesOnCycle(fuel: nat)
    ensures SourceClosure(TwoCycle, "a", fuel).None?
    ensures SourceClosure(TwoCycle, "b", fuel).None?
  {
    if fuel > 0 {
      SourceClosureDivergesOnCycle(fuel - 1);
      assert VisitChildren(TwoCycle, "a", 1, fuel - 1).None?;
      assert VisitChildren(TwoCycle, "b", 0, fuel - 1).None?;
    }
  }

  /** The guarded closure of the same cycle is the whole cycle. */
  lemma ClosureOfCycle()
    ensures Closure(TwoCycle, "a") == {"a", "b"}
  {
    CycleClosure(TwoCycle);
  }

  /** Two projects naming each other as parent: deleting either takes both. */
  lemma CycleClosure(ps: seq<Project>)
    requires |ps| == 2 && ps[0].parentId == Some(ps[1].id) && ps[1].parentId == Some(ps[0].id)
    ensures Closure(ps, ps[0].id) == {ps[0].id, ps[1].id}
  {
    var c := Closure(ps, ps[0].id);
    assert ps[1].id in c;
    forall x | x in ProjectIds(ps) ensures x == ps[0].id || x == ps[1].id {
      var k :| 0 <= k < |ps| && ps[k].id == x;
    }
  }

  /** The closure depends only on the id and parent link of each project. */
  lemma {:induction false} ClosureFollowsLinks(ps: seq<Project>, qs: seq<Project>, root: Id)
    requires |ps| == |qs|
    requires forall k :: 0 <= k < |ps| ==> ps[k].id == qs[k].id && ps[k].parentId == qs[k].parentId
    ensures Closure(ps, root) == Closure(qs, root)
  {
    assert ClosedUnder(qs, Closure(ps, root));
    assert ClosedUnder(ps, Closure(qs, root));
    ClosureLeast(ps, root, Closure(qs, root));
    ClosureLeast(qs, root, Closure(ps, root));
  }

  /** The first project of `ps` with no parent link (`parentId === null`), if any. */
  function FirstRoot(ps: seq<Project>): (r: Option<nat>)
    ensures r.Some? ==> r.value < |ps| && ps[r.value].parentId.None?
    ensures r.Some? ==> forall j :: 0 <= j < r.value ==> ps[j].parentId.Some?
    ensures r.None? ==> forall j :: 0 <= j < |ps| ==> ps[j].parentId.Some?
  {
    if |ps| == 0 then None
    else if ps[0].parentId.None? then Some(0)
    else match FirstRoot(ps[1..])
      case None => None
      case Some(k) => Some(k + 1)
  }

  /** The project selected after the active one was deleted: the first root, else the first project, else none. */
  function FallbackProject(ps: seq<Project>): (r: Option<Project>)
    ensures r.None? <==> |ps| == 0
    ensures r.Some? ==> r.value in ps
    ensures (exists k :: 0 <= k < |ps| && ps[k].parentId.None?) ==>
      && r.Some? && r.value.parentId.None?
      && (exists k :: 0 <= k < |ps| && ps[k] == r.value && forall j :: 0 <= j < k ==> ps[j].parentId.Some?)
    ensures (forall k :: 0 <= k < |ps| ==> ps[k].parentId.Some?) && |ps| > 0 ==> r == Some(ps[0])
  {
    if |ps| == 0 then None
    else match FirstRoot(ps)
      case Some(k) => Some(ps[k])
      case None => Some(ps[0])
  }

  /** The workspace and the selection after a change to the project forest. */
  datatype ForestOutcome = ForestOutcome(projects: seq<Project>, activeProject: Option<Id>, activeCanvas: Option<Id>)

  /** Membership tests of a project in, and outside, a set of ids. */
  function Inside(c: set<Id>): Project -> bool {
    (p: Project) => p.id in c
  }

  function Outside(c: set<Id>): Project -> bool {
    (p: Project) => p.id !in c
  }

  /** The projects outside the closure of `target`, in workspace order. */
  function Survivors(ps: seq<Project>, target: Id): (r: seq<Project>)
    ensures forall k :: 0 <= k < |r| ==> r[k] in ps && r[k].id !in Closure(ps, target)
    ensures forall k :: 0 <= k < |ps| && ps[k].id !in Closure(ps, target) ==> ps[k] in r
    ensures forall k :: 0 <= k < |r| && r[k].parentId.Some? ==> r[k].parentId.value !in Closure(ps, target)
    ensures exists idx :: Seqs.PicksOut(r, ps, idx) && forall i :: 0 <= i < |ps| && ps[i].id !in Closure(ps, target) ==> i in idx
  {
    var c := Closure(ps, target);
    var r := Seqs.Filter(ps, Outside(c));
    Seqs.FilterMembers(ps, Outside(c));
    assert forall k :: 0 <= k < |r| ==> exists j :: 0 <= j < |ps| && ps[j] == r[k];
    OutsideInOrder(ps, c);
    r
  }

  /**
   * `handleDeleteProject`: remove the closure of `target`; when the active
   * project was removed, select the fallback project and its first canvas.
   */
  function DeleteProject(ps: seq<Project>, target: Id, activeProject: Option<Id>, activeCanvas: Option<Id>): (o: ForestOutcome)
    ensures o.projects == Survivors(ps, target)
    ensures !(activeProject.Some? && activeProject.value in Closure(ps, target)) ==>
      o.activeProject == activeProject && o.activeCanvas == activeCanvas
    ensures activeProject.Some? && activeProject.value in Closure(ps, target) ==>
      match FallbackProject(o.projects)
      case None => o.activeProject.None? && o.activeCanvas.None?
      case Some(p) =>
        && o.activeProject == Some(p.id)
        && (if |p.canvases| > 0 then o.activeCanvas == Some(p.canvases[0].id) else o.activeCanvas.None?)
  {
    var c := Closure(ps, target);
    var remaining := Survivors(ps, target);
    if activeProject.Some? && activeProject.value in c then
      match FallbackProject(remaining)
      case None => ForestOutcome(remaining, None, None)
      case Some(p) => ForestOutcome(remaining, Some(p.id), if |p.canvases| > 0 then Some(p.canvases[0].id) else None)
    else ForestOutcome(remaining, activeProject, activeCanvas)
  }

  /** Deleting removes exactly the closure: no survivor is in it and no survivor points into it. */
  lemma DeleteRemovesExactlyClosure(ps: seq<Project>, target: Id, activeProject: Option<Id>, activeCanvas: Option<Id>)
    ensures var o := DeleteProject(ps, target, activeProject, activeCanvas);
      && (forall k :: 0 <= k < |o.projects| ==> o.projects[k].id !in Closure(ps, target))
      && (forall k :: 0 <= k < |ps| ==> (ps[k] in o.projects <==> ps[k].id !in Closure(ps, target)))
      && (forall k :: 0 <= k < |o.projects| && o.projects[k].parentId.Some? ==>
            o.projects[k].parentId.value !in ProjectIds(ps) - ProjectIds(o.projects))
  {
    assert DeleteProject(ps, target, activeProject, activeCanvas).projects == Survivors(ps, target);
    SurvivorsExactlyOutside(ps, target);
    SurvivorsNoDangling(ps, target);
  }

  /** A project of the workspace survives exactly when it is outside the closure. */
  lemma SurvivorsExactlyOutside(ps: seq<Project>, target: Id)
    ensures forall k :: 0 <= k < |ps| ==> (ps[k] in Survivors(ps, target) <==> ps[k].id !in Closure(ps, target))
  {
    var r := Survivors(ps, target);
    forall k | 0 <= k < |ps| && ps[k] in r
      ensures ps[k].id !in Closure(ps, target)
    {
      var j :| 0 <= j < |r| && r[j] == ps[k];
    }
  }

  /** No survivor's parent link names a project that was removed. */
  lemma SurvivorsNoDangling(ps: seq<Project>, target: Id)
    ensures var r := Survivors(ps, target);
      forall k :: 0 <= k < |r| && r[k].parentId.Some? ==> r[k].parentId.value !in ProjectIds(ps) - ProjectIds(r)
  {
    var r := Survivors(ps, target);
    forall k | 0 <= k < |r| && r[k].parentId.Some?
      ensures r[k].parentId.value !in ProjectIds(ps) - ProjectIds(r)
    {
      var p := r[k].parentId.value;
      if p in ProjectIds(ps) {
        var j :| 0 <= j < |ps| && ps[j].id == p;
        assert ps[j] in r;
      }
    }
  }

  /** A project nobody names as parent is its own whole closure. */
  lemma ClosureOfLeaf(ps: seq<Project>, x: Id)
    requires forall j :: 0 <= j < |ps| ==> ps[j].parentId != Some(x)
    ensures Closure(ps, x) == {x}
  {
    ClosureLeast(ps, x, {x});
  }

  /** Deleting a project nobody names as parent removes that project alone. */
  lemma {:induction false} DeleteLeaf(ps: seq<Project>, k: nat)
    requires k < |ps| && UniqueIds(ps)
    requires forall j :: 0 <= j < |ps| ==> ps[j].parentId != Some(ps[k].id)
    ensures Survivors(ps, ps[k].id) == ps[..k] + ps[k + 1..]
  {
    var x := ps[k].id;
    ClosureOfLeaf(ps, x);
    var f := Outside({x});
    var a, b := ps[..k], ps[k + 1..];
    assert ps == a + [ps[k]] + b;
    forall i | 0 <= i < |a| ensures f(a[i]) {
      assert a[i] == ps[i];
    }
    forall i | 0 <= i < |b| ensures f(b[i]) {
      assert b[i] == ps[k + 1 + i];
    }
    Seqs.FilterDropOne(a, ps[k], b, f);
  }

  /** Why an export produced nothing. */
  datatype ExportError = ProjectNotFound

  /** `handleExportProject` without the download: the closure of `id`, in workspace order, verbatim. */
  function ExportProject(ps: seq<Project>, id: Id): (r: Result<seq<Project>, ExportError>)
    ensures r.Failure? <==> forall k :: 0 <= k < |ps| ==> ps[k].id !in Closure(ps, id)
    ensures id in ProjectIds(ps) ==> r.Success?
    ensures r.Success? ==>
      && (forall k :: 0 <= k < |r.value| ==> r.value[k] in ps && r.value[k].id in Closure(ps, id))
      && (forall k :: 0 <= k < |ps| && ps[k].id in Closure(ps, id) ==> ps[k] in r.value)
      && (exists idx :: Seqs.PicksOut(r.value, ps, idx) && forall i :: 0 <= i < |ps| && ps[i].id in Closure(ps, id) ==> i in idx)
  {
    var c := Closure(ps, id);
    var data := Seqs.Filter(ps, Inside(c));
    Seqs.FilterMembers(ps, Inside(c));
    InsideInOrder(ps, c);
    if |data| > 0 then
      assert exists k :: 0 <= k < |ps| && ps[k] == data[0];
      Success(data)
    else
      assert forall k :: 0 <= k < |ps| ==> ps[k].id !in c;
      Failure(ProjectNotFound)
  }

  /** The projects outside `c` are taken in workspace order, every one of them. */
  lemma OutsideInOrder(ps: seq<Project>, c: set<Id>)
    ensures exists idx :: Seqs.PicksOut(Seqs.Filter(ps, Outside(c)), ps, idx) && forall i :: 0 <= i < |ps| && ps[i].id !in c ==> i in idx
  {
    var idx := Seqs.Kept(ps, Outside(c));
    assert forall i :: 0 <= i < |ps| && ps[i].id !in c ==> Outside(c)(ps[i]);
  }

  /** The projects inside `c` are taken in workspace order, every one of them. */
  lemma InsideInOrder(ps: seq<Project>, c: set<Id>)
    ensures exists idx :: Seqs.PicksOut(Seqs.Filter(ps, Inside(c)), ps, idx) && forall i :: 0 <= i < |ps| && ps[i].id in c ==> i in idx
  {
    var idx := Seqs.Kept(ps, Inside(c));
    assert forall i :: 0 <= i < |ps| && ps[i].id in c ==> Inside(c)(ps[i]);
  }

  /** Export and delete split the workspace: together they hold every project exactly once. */
  lemma ExportDeletePartition(ps: seq<Project>, id: Id)
    requires ExportProject(ps, id).Success?
    ensures multiset(ExportProject(ps, id).value) + multiset(Survivors(ps, id)) == multiset(ps)
  {
    var c := Closure(ps, id);
    Seqs.FilterSplit(ps, Inside(c), Outside(c));
  }

  /** `handleAddProject`: the new project (fresh id, default name, no canvases) is appended and selected. */
  function AddProject(ps: seq<Project>, parentId: Option<Id>, freshId: Id): (o: ForestOutcome)
    ensures |o.projects| == |ps| + 1 && o.projects[..|ps|] == ps
    ensures o.projects[|ps|] == Project(freshId, "New Project", [], parentId)
    ensures o.activeProject == Some(freshId) && o.activeCanvas.None?
  {
    ForestOutcome(ps + [Project(freshId, "New Project", [], parentId)], Some(freshId), None)
  }

  /** Deleting a freshly added project gives the workspace back. */
  lemma AddThenDelete(ps: seq<Project>, parentId: Option<Id>, freshId: Id)
    requires freshId !in ProjectIds(ps)
    requires forall j :: 0 <= j < |ps| ==> ps[j].parentId != Some(freshId)
    ensures Survivors(AddProject(ps, parentId, freshId).projects, freshId) == ps
  {
    var qs := AddProject(ps, parentId, freshId).projects;
    assert qs == ps + [qs[|ps|]];
    ClosureLeast(qs, freshId, {freshId});
    var f := Outside({freshId});
    Seqs.FilterConcat(ps, [qs[|ps|]], f);
    assert Seqs.Filter([qs[|ps|]], f) == [];
    Seqs.FilterAll(ps, f);
  }

  /** `handleRenameProject`: every project with id `id` takes the new name. */
  function RenameProject(ps: seq<Project>, id: Id, newName: string): (r: seq<Project>)
    ensures |r| == |ps|
    ensures forall k :: 0 <= k < |ps| ==>
      r[k].id == ps[k].id && r[k].parentId == ps[k].parentId && r[k].canvases == ps[k].canvases
      && r[k].name == (if ps[k].id == id then newName else ps[k].name)
  {
    seq(|ps|, k requires 0 <= k < |ps| => if ps[k].id == id then ps[k].(name := newName) else ps[k])
  }

  /** Renaming never changes the forest: every closure is the same afterwards. */
  lemma RenameKeepsClosures(ps: seq<Project>, id: Id, newName: string, root: Id)
    ensures Closure(RenameProject(ps, id, newName), root) == Closure(ps, root)
  {
    ClosureFollowsLinks(RenameProject(ps, id, newName), ps, root);
  }
}
