/**
 * The selection of the application: which project and which canvas are
 * active, how they start, and the effect that repairs them after every
 * change of the workspace.
 */
module Workspace {
  import opened Wrappers
  import opened Types

  /** The active project and canvas ids; each may be absent. */
  datatype Selection = Selection(activeProject: Option<Id>, activeCanvas: Option<Id>)

  /** On load the first project is active and no canvas is. */
  function InitialSelection(ps: seq<Project>): (s: Selection)
    ensures s.activeCanvas.None?
    ensures |ps| == 0 ==> s.activeProject.None?
    ensures |ps| > 0 ==> s.activeProject == Some(ps[0].id)
  {
    Selection(if |ps| > 0 then Some(ps[0].id) else None, None)
  }

  /** The project the active id designates: the first with that id. */
  function ActiveIndex(ps: seq<Project>, s: Selection): Option<nat> {
    if s.activeProject.Some? then FindProject(ps, s.activeProject.value) else None
  }

  /**
   * The selection effect, one run. With an active project but no active
   * canvas, a desktop layout selects its first canvas. With an active canvas
   * the project does not have, the first canvas (or none) is selected. With
   * no active project, the first project becomes active.
   */
  function SelectionEffect(ps: seq<Project>, s: Selection, isDesktop: bool): (r: Selection)
    ensures ActiveIndex(ps, s).None? ==> r.activeCanvas == s.activeCanvas
    ensures ActiveIndex(ps, s).None? && |ps| > 0 ==> r.activeProject == Some(ps[0].id)
    ensures ActiveIndex(ps, s).None? && |ps| == 0 ==> r == s
    ensures ActiveIndex(ps, s).Some? ==> r.activeProject == s.activeProject
    ensures ActiveIndex(ps, s).Some? ==>
      var cs := ps[ActiveIndex(ps, s).value].canvases;
      && (Present(r.activeCanvas) ==> exists j :: 0 <= j < |cs| && cs[j].id == r.activeCanvas.value)
      && (r.activeCanvas.None? ==> |cs| == 0 || (!isDesktop && !Present(s.activeCanvas)))
      && (Present(s.activeCanvas) && FindCanvas(cs, s.activeCanvas.value).Some? ==> r == s)
      && (r.activeCanvas != s.activeCanvas ==> r.activeCanvas == (if |cs| > 0 then Some(cs[0].id) else None))
  {
    match ActiveIndex(ps, s)
    case Some(k) =>
      var cs := ps[k].canvases;
      if !Present(s.activeCanvas) then
        if |cs| > 0 && isDesktop then s.(activeCanvas := Some(cs[0].id)) else s
      else if FindCanvas(cs, s.activeCanvas.value).None? then
        s.(activeCanvas := if |cs| > 0 then Some(cs[0].id) else None)
      else s
    case None =>
      if |ps| > 0 then s.(activeProject := Some(ps[0].id)) else s
  }

  /** The effect has nothing left to change. */
  predicate Settled(ps: seq<Project>, s: Selection, isDesktop: bool) {
    SelectionEffect(ps, s, isDesktop) == s
  }

  /** Once the first project is active, one more run reaches a settled selection. */
  lemma {:induction false} SettlesWhenProjectFound(ps: seq<Project>, s: Selection, isDesktop: bool)
    requires ActiveIndex(ps, s).Some?
    ensures Settled(ps, SelectionEffect(ps, s, isDesktop), isDesktop)
  {
    var r := SelectionEffect(ps, s, isDesktop);
    assert ActiveIndex(ps, r) == ActiveIndex(ps, s);
    var cs := ps[ActiveIndex(ps, s).value].canvases;
    if r.activeCanvas != s.activeCanvas && r.activeCanvas.Some? {
      assert r.activeCanvas == Some(cs[0].id);
      assert FindCanvas(cs, cs[0].id) == Some(0);
    }
  }

  /**
   * The effect re-runs while it changes the selection; after at most three
   * runs it settles, whatever the workspace and the starting selection.
   */
  lemma {:induction false} EffectSettles(ps: seq<Project>, s: Selection, isDesktop: bool)
    ensures var s1 := SelectionEffect(ps, s, isDesktop);
      var s2 := SelectionEffect(ps, s1, isDesktop);
      Settled(ps, SelectionEffect(ps, s2, isDesktop), isDesktop)
  {
    var s1 := SelectionEffect(ps, s, isDesktop);
    var s2 := SelectionEffect(ps, s1, isDesktop);
    if ActiveIndex(ps, s).Some? {
      SettlesWhenProjectFound(ps, s, isDesktop);
    } else if |ps| > 0 {
      assert FindProject(ps, ps[0].id) == Some(0);
      SettlesWhenProjectFound(ps, s1, isDesktop);
    }
  }

  /**
   * A settled selection over a non-empty workspace is consistent: the active
   * project exists, an active canvas belongs to it, and on a desktop layout a
   * project with canvases always has one selected.
   */
  lemma SettledIsConsistent(ps: seq<Project>, s: Selection, isDesktop: bool)
    requires Settled(ps, s, isDesktop) && |ps| > 0
    ensures ActiveIndex(ps, s).Some?
    ensures var cs := ps[ActiveIndex(ps, s).value].canvases;
      && (Present(s.activeCanvas) ==> exists j :: 0 <= j < |cs| && cs[j].id == s.activeCanvas.value)
      && (isDesktop && |cs| > 0 ==> s.activeCanvas.Some?)
  {
    var r := SelectionEffect(ps, s, isDesktop);
    assert r == s;
  }

  /** `handleSelectProject`: the project becomes active and no canvas is selected. */
  function SelectProject(s: Selection, id: Id): (r: Selection)
    ensures r.activeProject == Some(id) && r.activeCanvas.None?
  {
    Selection(Some(id), None)
  }

  /** On a desktop layout, selecting a project with canvases settles on its first canvas. */
  lemma SelectProjectOpensFirstCanvas(ps: seq<Project>, s: Selection, k: nat)
    requires k < |ps| && FindProject(ps, ps[k].id) == Some(k) && |ps[k].canvases| > 0
    ensures var r := SelectionEffect(ps, SelectProject(s, ps[k].id), true);
      r == Selection(Some(ps[k].id), Some(ps[k].canvases[0].id)) && Settled(ps, r, true)
  {
    var r := SelectionEffect(ps, SelectProject(s, ps[k].id), true);
    SettlesWhenProjectFound(ps, SelectProject(s, ps[k].id), true);
  }

  /** `handleSelectCanvas`. */
  function SelectCanvas(s: Selection, id: Id): (r: Selection)
    ensures r.activeProject == s.activeProject && r.activeCanvas == Some(id)
  {
    s.(activeCanvas := Some(id))
  }
}
