/**
 * The library pane: the flat project list arranged as a tree for display,
 * the inline rename rule and the save-status caption.
 */
module Library {
  import opened Wrappers
  import opened Types
  import Text
  import Seqs

  /**
   * The project an id resolves to in the pane's id-to-node map. The map is
   * built from the whole list, so of several projects sharing an id the
   * last one wins.
   */
  function LastWithId(ps: seq<Project>, id: Id): (r: Option<nat>)
    ensures r.Some? ==> r.value < |ps| && ps[r.value].id == id
  {
    LastBefore(ps, id, |ps|)
  }

  /** The last of the first `n` projects with the id. */
  function LastBefore(ps: seq<Project>, id: Id, n: nat): (r: Option<nat>)
    requires n <= |ps|
    ensures r.Some? ==> r.value < n && ps[r.value].id == id
  {
    if n == 0 then None
    else if ps[n - 1].id == id then Some(n - 1)
    else LastBefore(ps, id, n - 1)
  }

  /** The id lookup finds the last project with the id, and finds nothing only when no project has it. */
  lemma LastWithIdSpec(ps: seq<Project>, id: Id)
    ensures LastWithId(ps, id).Some? ==> forall j :: LastWithId(ps, id).value < j < |ps| ==> ps[j].id != id
    ensures LastWithId(ps, id).None? <==> forall j :: 0 <= j < |ps| ==> ps[j].id != id
  {
    LastBeforeSpec(ps, id, |ps|);
  }

  lemma {:induction false} LastBeforeSpec(ps: seq<Project>, id: Id, n: nat)
    requires n <= |ps|
    ensures LastBefore(ps, id, n).Some? ==> forall j :: LastBefore(ps, id, n).value < j < n ==> ps[j].id != id
    ensures LastBefore(ps, id, n).None? <==> forall j :: 0 <= j < n ==> ps[j].id != id
  {
    if n > 0 && ps[n - 1].id != id {
      LastBeforeSpec(ps, id, n - 1);
    }
  }

  /** The node that stands for the project at index `k`. */
  function NodeOf(ps: seq<Project>, k: nat): (n: nat)
    requires k < |ps|
    ensures k <= n < |ps| && ps[n].id == ps[k].id
  {
    LastWithIdSpec(ps, ps[k].id);
    LastWithId(ps, ps[k].id).value
  }

  /**
   * The node the project at index `k` is hung under: none when its parent
   * link is falsy or names no project, and it then becomes a root.
   */
  function ParentNode(ps: seq<Project>, k: nat): (r: Option<nat>)
    requires k < |ps|
    ensures r.Some? ==> Present(ps[k].parentId) && r.value < |ps| && ps[r.value].id == ps[k].parentId.value && NodeOf(ps, r.value) == r.value
  {
    if Present(ps[k].parentId) then LastWithId(ps, ps[k].parentId.value) else None
  }

  /** A project is a root exactly when its parent link is falsy or names no project. */
  lemma RootIffUnlinked(ps: seq<Project>, k: nat)
    requires k < |ps|
    ensures ParentNode(ps, k).None? <==>
      !Present(ps[k].parentId) || forall j :: 0 <= j < |ps| ==> ps[j].id != ps[k].parentId.value
  {
    if Present(ps[k].parentId) {
      LastWithIdSpec(ps, ps[k].parentId.value);
    }
  }

  /**
   * Reference definition of one child list of the tree: the nodes of the
   * first `m` projects whose parent node is `parent` (the roots for `None`),
   * in list order.
   */
  function Placed(ps: seq<Project>, m: nat, parent: Option<nat>): seq<nat>
    requires m <= |ps|
  {
    if m == 0 then []
    else Placed(ps, m - 1, parent) + (if ParentNode(ps, m - 1) == parent then [NodeOf(ps, m - 1)] else [])
  }

  /** The nodes that carry a child list: one per distinct id. */
  predicate IsNode(ps: seq<Project>, n: nat) {
    n < |ps| && NodeOf(ps, n) == n
  }

  /** The builder's state after the first `i` projects: the reference lists, one per node. */
  ghost predicate Built(ps: seq<Project>, i: nat, roots: seq<nat>, children: map<nat, seq<nat>>)
    requires i <= |ps|
  {
    && roots == Placed(ps, i, None)
    && (forall n :: n in children <==> IsNode(ps, n))
    && (forall n :: n in children ==> children[n] == Placed(ps, i, Some(n)))
  }

  /**
   * The tree builder: one pass over the list, each project pushed either
   * onto the roots or onto its parent node's child list.
   */
  method BuildTree(ps: seq<Project>) returns (roots: seq<nat>, children: map<nat, seq<nat>>)
    ensures roots == Placed(ps, |ps|, None)
    ensures forall n :: n in children <==> IsNode(ps, n)
    ensures forall n :: n in children ==> children[n] == Placed(ps, |ps|, Some(n))
  {
    roots := [];
    children := map n | 0 <= n < |ps| && NodeOf(ps, n) == n :: [];
    for i := 0 to |ps|
      invariant Built(ps, i, roots, children)
    {
      roots, children := Place(ps, i, roots, children);
    }
  }

  /** One step of the builder: the project at index `i` is pushed onto its parent's list or onto the roots. */
  method Place(ps: seq<Project>, i: nat, roots: seq<nat>, children: map<nat, seq<nat>>)
    returns (roots': seq<nat>, children': map<nat, seq<nat>>)
    requires i < |ps| && Built(ps, i, roots, children)
    ensures Built(ps, i + 1, roots', children')
  {
    var node := NodeOf(ps, i);
    var up := ParentNode(ps, i);
    if up.Some? {
      PushStep(ps, i, children);
      roots', children' := roots, children[up.value := children[up.value] + [node]];
    } else {
      SkipStep(ps, i, children);
      roots', children' := roots + [node], children;
    }
  }

  /** One step of the builder for a project with a parent node: that node's list grows by it. */
  lemma PushStep(ps: seq<Project>, i: nat, children: map<nat, seq<nat>>)
    requires i < |ps| && ParentNode(ps, i).Some?
    requires forall n :: n in children <==> IsNode(ps, n)
    requires forall n :: n in children ==> children[n] == Placed(ps, i, Some(n))
    ensures ParentNode(ps, i).value in children
    ensures Placed(ps, i + 1, None) == Placed(ps, i, None)
    ensures var up := ParentNode(ps, i).value;
      var next := children[up := children[up] + [NodeOf(ps, i)]];
      && (forall n :: n in next <==> IsNode(ps, n))
      && (forall n :: n in next ==> next[n] == Placed(ps, i + 1, Some(n)))
  {
    var up := ParentNode(ps, i).value;
    assert IsNode(ps, up);
    assert Placed(ps, i + 1, None) == Placed(ps, i, None) + [];
    var next := children[up := children[up] + [NodeOf(ps, i)]];
    assert next.Keys == children.Keys;
    forall n | n in next ensures next[n] == Placed(ps, i + 1, Some(n)) {
      assert Placed(ps, i + 1, Some(n)) == Placed(ps, i, Some(n)) + (if up == n then [NodeOf(ps, i)] else []);
    }
  }

  /** One step of the builder for a root: the roots grow by it and no child list changes. */
  lemma SkipStep(ps: seq<Project>, i: nat, children: map<nat, seq<nat>>)
    requires i < |ps| && ParentNode(ps, i).None?
    requires forall n :: n in children ==> children[n] == Placed(ps, i, Some(n))
    ensures forall n :: n in children ==> children[n] == Placed(ps, i + 1, Some(n))
    ensures Placed(ps, i + 1, None) == Placed(ps, i, None) + [NodeOf(ps, i)]
  {
    forall n | n in children ensures children[n] == Placed(ps, i + 1, Some(n)) {
      assert Placed(ps, i + 1, Some(n)) == Placed(ps, i, Some(n)) + [];
    }
  }

  /** With unique ids every project is its own node. */
  lemma NodeOfUnique(ps: seq<Project>, k: nat)
    requires UniqueIds(ps) && k < |ps|
    ensures NodeOf(ps, k) == k
  {
  }

  /** Every project is its own node, as happens when ids are unique. */
  predicate OwnNodes(ps: seq<Project>) {
    forall j :: 0 <= j < |ps| ==> NodeOf(ps, j) == j
  }

  lemma UniqueOwnNodes(ps: seq<Project>)
    requires UniqueIds(ps)
    ensures OwnNodes(ps)
  {
    forall j | 0 <= j < |ps| ensures NodeOf(ps, j) == j {
      NodeOfUnique(ps, j);
    }
  }

  /** When every project is its own node, `k` is listed under `parent` exactly when it hangs there. */
  lemma {:induction false} PlacedMembers(ps: seq<Project>, m: nat, parent: Option<nat>, k: nat)
    requires OwnNodes(ps) && m <= |ps| && k < |ps|
    ensures k in Placed(ps, m, parent) <==> k < m && ParentNode(ps, k) == parent
  {
    if m > 0 {
      PlacedMembers(ps, m - 1, parent, k);
      var last: seq<nat> := if ParentNode(ps, m - 1) == parent then [m - 1] else [];
      assert NodeOf(ps, m - 1) == m - 1;
      assert Placed(ps, m, parent) == Placed(ps, m - 1, parent) + last;
      assert k in last <==> k == m - 1 && ParentNode(ps, k) == parent;
    }
  }

  /** With unique ids each child list keeps the order of the flat list. */
  lemma {:induction false} PlacedInOrder(ps: seq<Project>, m: nat, parent: Option<nat>)
    requires UniqueIds(ps) && m <= |ps|
    ensures forall a :: 0 <= a < |Placed(ps, m, parent)| ==> Placed(ps, m, parent)[a] < m
    ensures Seqs.Increasing(Placed(ps, m, parent))
  {
    if m > 0 {
      PlacedInOrder(ps, m - 1, parent);
      NodeOfUnique(ps, m - 1);
    }
  }

  /**
   * With unique ids the project at index `k` appears exactly once in the
   * list for its own parent node, and in no other list of the tree.
   */
  lemma PlacedCount(ps: seq<Project>, m: nat, parent: Option<nat>, k: nat)
    requires UniqueIds(ps) && m <= |ps| && k < |ps|
    ensures multiset(Placed(ps, m, parent))[k] == (if k < m && ParentNode(ps, k) == parent then 1 else 0)
  {
    UniqueOwnNodes(ps);
    PlacedMembers(ps, m, parent, k);
    PlacedInOrder(ps, m, parent);
    Seqs.IncreasingCount(Placed(ps, m, parent), k);
  }

  /**
   * With unique ids the tree's parent relation is the forest's link
   * relation: `k` hangs under `n` exactly when its truthy parent link names
   * `n`'s id.
   */
  lemma ParentNodeIsLink(ps: seq<Project>, k: nat, n: nat)
    requires UniqueIds(ps) && k < |ps| && n < |ps|
    ensures ParentNode(ps, k) == Some(n) <==> Present(ps[k].parentId) && ps[k].parentId.value == ps[n].id
  {
    if Present(ps[k].parentId) {
      LastWithIdSpec(ps, ps[k].parentId.value);
    }
  }

  /**
   * A project whose parent link names itself is pushed onto its own child
   * list and is not a root, so a walk from the roots never reaches it.
   */
  lemma SelfParentNotRoot(ps: seq<Project>, k: nat)
    requires UniqueIds(ps) && k < |ps|
    requires ps[k].id != "" && ps[k].parentId == Some(ps[k].id)
    ensures multiset(Placed(ps, |ps|, None))[k] == 0
    ensures multiset(Placed(ps, |ps|, Some(k)))[k] == 1
  {
    LastWithIdSpec(ps, ps[k].id);
    assert ParentNode(ps, k) == Some(k);
    PlacedCount(ps, |ps|, None, k);
    PlacedCount(ps, |ps|, Some(k), k);
  }

  /** What finishing an inline rename does. */
  datatype RenameOutcome =
    | Submit(name: string)  // the trimmed name is handed to the rename handler
    | Revert(name: string)  // the field goes back to the project's current name

  /** Finishing an inline rename (blur or Enter): a blank draft is discarded. */
  function FinishRename(draft: string, current: string): (r: RenameOutcome)
    ensures r.Submit? <==> !Text.Blank(draft)
    ensures r.Submit? ==> r.name == Text.Trim(draft)
    ensures r.Submit? ==> r.name != "" && Text.Trim(r.name) == r.name
    ensures r.Submit? ==> exists i: nat, j: nat | i <= j <= |draft| :: r.name == draft[i..j]
    ensures r.Revert? ==> r.name == current
  {
    Text.TrimEmptyIffBlank(draft);
    Text.TrimIdempotent(draft);
    if Text.Trim(draft) != "" then Submit(Text.Trim(draft)) else Revert(current)
  }

  /** The caption under the project list. */
  function SaveStatusText(isSaving: bool): (t: string)
    ensures t == "Saving..." <==> isSaving
    ensures !isSaving ==> t == "Saved"
  {
    if isSaving then "Saving..." else "Saved"
  }
}
