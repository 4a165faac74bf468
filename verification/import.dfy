/**
 * Importing an exported project file: shape validation, then the two-pass
 * id regeneration, then appending the batch after the existing projects.
 *
 * New ids come from an oracle `gen: nat -> Id` standing for the source's
 * `Date.now()` / `Math.random()` ids: the i-th id generated during pass 1 is
 * `gen(i)`. Which properties need the oracle to be injective or to avoid
 * existing ids is stated lemma by lemma.
 */
module Import {
  import opened Wrappers
  import opened Types

  /** The ids of a block list, in order. */
  function BlockIds(bs: seq<Block>): (ids: seq<Id>)
    ensures |ids| == |bs|
    ensures forall k :: 0 <= k < |bs| ==> ids[k] == bs[k].id
  {
    seq(|bs|, k requires 0 <= k < |bs| => bs[k].id)
  }

  /** The blocks a pass-1 walk visits in a canvas (`c.blocks || []`). */
  function WalkedBlocks(c: Canvas): seq<Block> {
    c.blocks.GetOr([])
  }

  /** Canvas and block ids in the order pass 1 visits them: each canvas, then its blocks. */
  function CanvasIds(cs: seq<Canvas>): seq<Id> {
    if |cs| == 0 then []
    else [cs[0].id] + BlockIds(WalkedBlocks(cs[0])) + CanvasIds(cs[1..])
  }

  /** How many ids pass 1 generates for one project. */
  function Size(p: Project): nat {
    1 + |CanvasIds(p.canvases)|
  }

  /** Every id of a batch in pass-1 order: each project, then its canvases and blocks. */
  function BatchIds(ps: seq<Project>): seq<Id> {
    if |ps| == 0 then []
    else [ps[0].id] + CanvasIds(ps[0].canvases) + BatchIds(ps[1..])
  }

  /** The position in `BatchIds(ps)` of the id of project `j`. */
  function Offset(ps: seq<Project>, j: nat): nat
    requires j < |ps|
  {
    if j == 0 then 0 else Size(ps[0]) + Offset(ps[1..], j - 1)
  }

  lemma {:induction false} OffsetLocatesProject(ps: seq<Project>, j: nat)
    requires j < |ps|
    ensures Offset(ps, j) < |BatchIds(ps)|
    ensures BatchIds(ps)[Offset(ps, j)] == ps[j].id
  {
    if j > 0 {
      OffsetLocatesProject(ps[1..], j - 1);
      assert BatchIds(ps)[Size(ps[0])..] == BatchIds(ps[1..]);
    }
  }

  /** The oracle's ids number `n` to `n + len - 1`, in order. */
  function FreshRange(gen: nat -> Id, n: nat, len: nat): (r: seq<Id>)
    ensures |r| == len
    ensures forall i :: 0 <= i < len ==> r[i] == gen(n + i)
  {
    seq(len, i requires 0 <= i < len => gen(n + i))
  }

  lemma FreshRangeSplit(gen: nat -> Id, n: nat, a: nat, b: nat)
    ensures FreshRange(gen, n, a) + FreshRange(gen, n + a, b) == FreshRange(gen, n, a + b)
  {
  }

  /** Pass 1 on a block list: block `k` takes id `gen(n + k)`. */
  function RenumberBlocks(bs: seq<Block>, gen: nat -> Id, n: nat): (r: seq<Block>)
    ensures |r| == |bs|
    ensures forall k :: 0 <= k < |bs| ==> r[k] == bs[k].(id := gen(n + k))
  {
    seq(|bs|, k requires 0 <= k < |bs| => bs[k].(id := gen(n + k)))
  }

  /** Pass 1 on one canvas: the canvas takes `gen(n)`, its blocks the ids after it. */
  function RenumberCanvas(c: Canvas, gen: nat -> Id, n: nat): Canvas {
    c.(id := gen(n),
       blocks := if c.blocks.Some? then Some(RenumberBlocks(c.blocks.value, gen, n + 1)) else None)
  }

  function RenumberCanvases(cs: seq<Canvas>, gen: nat -> Id, n: nat): (r: seq<Canvas>)
    ensures |r| == |cs|
  {
    if |cs| == 0 then []
    else [RenumberCanvas(cs[0], gen, n)] + RenumberCanvases(cs[1..], gen, n + 1 + |WalkedBlocks(cs[0])|)
  }

  /** Pass 1 on one project whose id is the `i`-th generated: its canvases and blocks take the ids after it. */
  function RenumberProject(p: Project, gen: nat -> Id, i: nat): Project {
    p.(id := gen(i), canvases := RenumberCanvases(p.canvases, gen, i + 1))
  }

  /**
   * Pass 1 on the batch, numbering from `n`: the walk's counter reaches
   * project `k` after every id of the projects before it.
   * Parent links are left for pass 2.
   */
  function RenumberProjects(ps: seq<Project>, gen: nat -> Id, n: nat): (r: seq<Project>)
    ensures |r| == |ps|
  {
    seq(|ps|, k requires 0 <= k < |ps| => RenumberProject(ps[k], gen, n + Offset(ps, k)))
  }

  /** The rest of the walk is the walk of the rest, started after the first project's ids. */
  lemma RenumberProjectsTail(ps: seq<Project>, gen: nat -> Id, n: nat)
    requires |ps| > 0
    ensures RenumberProjects(ps, gen, n)[1..] == RenumberProjects(ps[1..], gen, n + Size(ps[0]))
  {
    var r := RenumberProjects(ps, gen, n);
    var t := RenumberProjects(ps[1..], gen, n + Size(ps[0]));
    forall k | 0 <= k < |ps| - 1 ensures r[1..][k] == t[k] {
      assert ps[1..][k] == ps[k + 1];
      assert Offset(ps, k + 1) == Size(ps[0]) + Offset(ps[1..], k);
    }
  }

  /** Pass 1's ids are the oracle's, in visiting order. */
  lemma {:induction false} RenumberCanvasesIds(cs: seq<Canvas>, gen: nat -> Id, n: nat)
    ensures CanvasIds(RenumberCanvases(cs, gen, n)) == FreshRange(gen, n, |CanvasIds(cs)|)
  {
    if |cs| > 0 {
      var len := |WalkedBlocks(cs[0])|;
      var r := RenumberCanvases(cs, gen, n);
      var rest := |CanvasIds(cs[1..])|;
      RenumberCanvasesIds(cs[1..], gen, n + 1 + len);
      assert r[0] == RenumberCanvas(cs[0], gen, n);
      assert r[1..] == RenumberCanvases(cs[1..], gen, n + 1 + len);
      RenumberCanvasHeadIds(cs[0], gen, n);
      assert CanvasIds(r) == FreshRange(gen, n, 1 + len) + FreshRange(gen, n + 1 + len, rest);
      FreshRangeSplit(gen, n, 1 + len, rest);
    }
  }

  /** One canvas's own id and its blocks' ids are the next ones the oracle gives. */
  lemma RenumberCanvasHeadIds(c: Canvas, gen: nat -> Id, n: nat)
    ensures [RenumberCanvas(c, gen, n).id] + BlockIds(WalkedBlocks(RenumberCanvas(c, gen, n))) ==
      FreshRange(gen, n, 1 + |WalkedBlocks(c)|)
  {
    var len := |WalkedBlocks(c)|;
    assert BlockIds(WalkedBlocks(RenumberCanvas(c, gen, n))) == FreshRange(gen, n + 1, len);
    FreshRangeSplit(gen, n, 1, len);
  }

  lemma {:induction false} RenumberProjectsIds(ps: seq<Project>, gen: nat -> Id, n: nat)
    ensures BatchIds(RenumberProjects(ps, gen, n)) == FreshRange(gen, n, |BatchIds(ps)|)
  {
    if |ps| > 0 {
      var c := |CanvasIds(ps[0].canvases)|;
      RenumberProjectsIds(ps[1..], gen, n + Size(ps[0]));
      RenumberTailIds(ps, gen, n);
      RenumberHeadIds(ps, gen, n);
      FreshRangeSplit(gen, n, 1 + c, |BatchIds(ps[1..])|);
    }
  }

  /** The first project's own ids and its canvases' and blocks' come first in the walk. */
  lemma RenumberHeadIds(ps: seq<Project>, gen: nat -> Id, n: nat)
    requires |ps| > 0
    ensures var r := RenumberProjects(ps, gen, n);
      [r[0].id] + CanvasIds(r[0].canvases) == FreshRange(gen, n, 1 + |CanvasIds(ps[0].canvases)|)
  {
    var r := RenumberProjects(ps, gen, n);
    RenumberCanvasesIds(ps[0].canvases, gen, n + 1);
    assert r[0] == RenumberProject(ps[0], gen, n);
    FreshRangeSplit(gen, n, 1, |CanvasIds(ps[0].canvases)|);
  }

  lemma RenumberTailIds(ps: seq<Project>, gen: nat -> Id, n: nat)
    requires |ps| > 0
    requires BatchIds(RenumberProjects(ps[1..], gen, n + Size(ps[0]))) == FreshRange(gen, n + Size(ps[0]), |BatchIds(ps[1..])|)
    ensures BatchIds(RenumberProjects(ps, gen, n)[1..]) == FreshRange(gen, n + Size(ps[0]), |BatchIds(ps[1..])|)
  {
    RenumberProjectsTail(ps, gen, n);
  }

  /** A block, canvas and project with every id blanked: what pass 1 must not change. */
  function BlankBlock(b: Block): Block {
    b.(id := "")
  }

  function BlankBlocks(bs: seq<Block>): (r: seq<Block>)
    ensures |r| == |bs| && forall k :: 0 <= k < |bs| ==> r[k] == BlankBlock(bs[k])
  {
    seq(|bs|, k requires 0 <= k < |bs| => BlankBlock(bs[k]))
  }

  function BlankCanvas(c: Canvas): Canvas {
    c.(id := "", blocks := if c.blocks.Some? then Some(BlankBlocks(c.blocks.value)) else None)
  }

  /** A project without its ids and parent link: names, order, types and contents only. */
  function Skeleton(p: Project): Project {
    Project("", p.name, BlankCanvases(p.canvases), None)
  }

  function BlankCanvases(cs: seq<Canvas>): (r: seq<Canvas>)
    ensures |r| == |cs| && forall k :: 0 <= k < |cs| ==> r[k] == BlankCanvas(cs[k])
  {
    seq(|cs|, k requires 0 <= k < |cs| => BlankCanvas(cs[k]))
  }

  lemma RenumberCanvasKeepsContent(c: Canvas, gen: nat -> Id, n: nat)
    ensures BlankCanvas(RenumberCanvas(c, gen, n)) == BlankCanvas(c)
  {
    if c.blocks.Some? {
      var bs := c.blocks.value;
      var rs := RenumberBlocks(bs, gen, n + 1);
      assert forall k :: 0 <= k < |bs| ==> BlankBlock(rs[k]) == BlankBlock(bs[k]);
      assert BlankBlocks(rs) == BlankBlocks(bs);
    }
  }

  lemma {:induction false} RenumberCanvasesKeepsContent(cs: seq<Canvas>, gen: nat -> Id, n: nat)
    ensures forall k :: 0 <= k < |cs| ==> BlankCanvas(RenumberCanvases(cs, gen, n)[k]) == BlankCanvas(cs[k])
  {
    if |cs| > 0 {
      RenumberCanvasesKeepsContent(cs[1..], gen, n + 1 + |WalkedBlocks(cs[0])|);
      var r := RenumberCanvases(cs, gen, n);
      assert r[1..] == RenumberCanvases(cs[1..], gen, n + 1 + |WalkedBlocks(cs[0])|);
      forall k | 0 <= k < |cs| ensures BlankCanvas(r[k]) == BlankCanvas(cs[k]) {
        if k == 0 {
          RenumberCanvasKeepsContent(cs[0], gen, n);
        } else {
          assert r[k] == r[1..][k - 1];
        }
      }
    }
  }

  /** `q` is `p` renumbered by pass 1 with new id `gen(i)`: same skeleton, same parent link. */
  predicate RenumberedAs(p: Project, q: Project, gen: nat -> Id, i: nat) {
    Skeleton(q) == Skeleton(p) && q.parentId == p.parentId && q.id == gen(i)
  }

  /** Pass 1 changes nothing but ids: project `k` keeps its skeleton and parent link and takes the id at its walk position. */
  lemma RenumberProjectsKeepsContent(ps: seq<Project>, gen: nat -> Id, n: nat, k: nat)
    requires k < |ps|
    ensures RenumberedAs(ps[k], RenumberProjects(ps, gen, n)[k], gen, n + Offset(ps, k))
  {
    var i := n + Offset(ps, k);
    var p := ps[k];
    assert RenumberProjects(ps, gen, n)[k] == RenumberProject(p, gen, i);
    RenumberCanvasesKeepsContent(p.canvases, gen, i + 1);
    assert BlankCanvases(RenumberCanvases(p.canvases, gen, i + 1)) == BlankCanvases(p.canvases);
  }

  /**
   * The id map as pass 1 fills it: one map shared by projects, canvases and
   * blocks, each visited old id set to its new id, later entries overwriting
   * earlier ones.
   */
  function FillMap(keys: seq<Id>, gen: nat -> Id, n: nat, m: map<Id, Id>): map<Id, Id> {
    if |keys| == 0 then m
    else FillMap(keys[1..], gen, n + 1, m[keys[0] := gen(n)])
  }

  /** The filled map has an entry for exactly the old entries and the visited keys. */
  lemma {:induction false} FillMapKeys(keys: seq<Id>, gen: nat -> Id, n: nat, m: map<Id, Id>)
    ensures forall x :: x in FillMap(keys, gen, n, m) <==> x in m || x in keys
  {
    if |keys| > 0 {
      FillMapKeys(keys[1..], gen, n + 1, m[keys[0] := gen(n)]);
      assert forall x :: x in keys <==> x == keys[0] || x in keys[1..];
    }
  }

  /** Keys the walk never visits keep their old entry. */
  lemma {:induction false} FillMapOutside(keys: seq<Id>, gen: nat -> Id, n: nat, m: map<Id, Id>, x: Id)
    requires x in m && forall k :: 0 <= k < |keys| ==> keys[k] != x
    ensures x in FillMap(keys, gen, n, m) && FillMap(keys, gen, n, m)[x] == m[x]
  {
    if |keys| > 0 {
      FillMapOutside(keys[1..], gen, n + 1, m[keys[0] := gen(n)], x);
    }
  }

  /** The last visit of a key decides its entry: the new id generated at that visit. */
  lemma {:induction false} FillMapLastWins(keys: seq<Id>, gen: nat -> Id, n: nat, m: map<Id, Id>, i: nat)
    requires i < |keys|
    requires forall j :: i < j < |keys| ==> keys[j] != keys[i]
    ensures keys[i] in FillMap(keys, gen, n, m) && FillMap(keys, gen, n, m)[keys[i]] == gen(n + i)
  {
    if i == 0 {
      FillMapOutside(keys[1..], gen, n + 1, m[keys[0] := gen(n)], keys[0]);
    } else {
      FillMapLastWins(keys[1..], gen, n + 1, m[keys[0] := gen(n)], i - 1);
    }
  }

  /** The shared id map of a batch after pass 1: it maps exactly the batch's old ids. */
  function IdMap(ps: seq<Project>, gen: nat -> Id): (m: map<Id, Id>)
    ensures forall x :: x in m <==> x in BatchIds(ps)
  {
    FillMapKeys(BatchIds(ps), gen, 0, map[]);
    FillMap(BatchIds(ps), gen, 0, map[])
  }

  /** Pass 2 on one parent link: follow the shared map, else become a root. */
  function Relink(parentId: Option<Id>, m: map<Id, Id>): (r: Option<Id>)
    ensures r.Some? <==> Present(parentId) && parentId.value in m && m[parentId.value] != ""
    ensures r.Some? ==> r.value == m[parentId.value]
  {
    if Present(parentId) && parentId.value in m && m[parentId.value] != "" then Some(m[parentId.value])
    else None
  }

  /** `regenerateIds`: pass 1 renumbers every entity, pass 2 rewrites parent links through the shared map. */
  function RegenerateIds(ps: seq<Project>, gen: nat -> Id): (r: seq<Project>)
    ensures |r| == |ps|
    ensures BatchIds(r) == FreshRange(gen, 0, |BatchIds(ps)|)
  {
    var pass1 := RenumberProjects(ps, gen, 0);
    var m := IdMap(ps, gen);
    var r := seq(|ps|, k requires 0 <= k < |ps| => pass1[k].(parentId := Relink(pass1[k].parentId, m)));
    RenumberProjectsIds(ps, gen, 0);
    SameIdsSameBatch(pass1, r);
    r
  }

  /**
   * Project `k` of the regenerated batch: same name, canvases and blocks
   * apart from ids; the id generated at its walk position; and its parent
   * link looked up in the shared map.
   */
  lemma RegenerateIdsAt(ps: seq<Project>, gen: nat -> Id, k: nat)
    requires k < |ps|
    ensures Skeleton(RegenerateIds(ps, gen)[k]) == Skeleton(ps[k])
    ensures RegenerateIds(ps, gen)[k].id == gen(Offset(ps, k))
    ensures RegenerateIds(ps, gen)[k].parentId == Relink(ps[k].parentId, IdMap(ps, gen))
  {
    RenumberProjectsKeepsContent(ps, gen, 0, k);
  }

  /** Batch ids ignore parent links. */
  lemma {:induction false} SameIdsSameBatch(ps: seq<Project>, qs: seq<Project>)
    requires |ps| == |qs|
    requires forall k :: 0 <= k < |ps| ==> ps[k].id == qs[k].id && ps[k].canvases == qs[k].canvases
    ensures BatchIds(ps) == BatchIds(qs)
  {
    if |ps| > 0 {
      SameIdsSameBatch(ps[1..], qs[1..]);
    }
  }

  /** No id occurs twice in `ids`. */
  predicate Distinct(ids: seq<Id>)
    decreases |ids|
  {
    |ids| == 0 || (ids[0] !in ids[1..] && Distinct(ids[1..]))
  }

  /** Distinctness, position by position: nothing after position `o` repeats the id there. */
  lemma {:induction false} DistinctAfter(keys: seq<Id>, o: nat)
    requires o < |keys| && Distinct(keys)
    ensures forall i :: o < i < |keys| ==> keys[i] != keys[o]
  {
    if o == 0 {
      forall i | 0 < i < |keys| ensures keys[i] != keys[0] {
        assert keys[i] == keys[1..][i - 1];
      }
    } else {
      DistinctAfter(keys[1..], o - 1);
      forall i | o < i < |keys| ensures keys[i] != keys[o] {
        assert keys[i] == keys[1..][i - 1];
      }
    }
  }

  /** Ids the oracle generates at pairwise different positions are pairwise different. */
  lemma {:induction false} InjectiveRangeDistinct(gen: nat -> Id, n: nat, len: nat)
    requires forall i, j :: n <= i < n + len && n <= j < n + len && gen(i) == gen(j) ==> i == j
    ensures Distinct(FreshRange(gen, n, len))
    decreases len
  {
    if len > 0 {
      var r := FreshRange(gen, n, len);
      InjectiveRangeDistinct(gen, n + 1, len - 1);
      assert r[1..] == FreshRange(gen, n + 1, len - 1);
    }
  }

  /**
   * The intended parent mapping: when the old ids of the batch are pairwise
   * distinct (across projects, canvases and blocks), a project whose parent is
   * project `j` of the batch ends up pointing at project `j`'s new id.
   */
  lemma ParentFollowsRenaming(ps: seq<Project>, gen: nat -> Id, k: nat, j: nat)
    requires k < |ps| && j < |ps|
    requires Distinct(BatchIds(ps))
    requires ps[k].parentId == Some(ps[j].id) && ps[j].id != ""
    requires gen(Offset(ps, j)) != ""
    ensures RegenerateIds(ps, gen)[k].parentId == Some(RegenerateIds(ps, gen)[j].id)
  {
    var o := Offset(ps, j);
    IdMapAtProject(ps, gen, j);
    var m := IdMap(ps, gen);
    assert m[ps[j].id] == gen(o);
    RegenerateIdsAt(ps, gen, j);
    RegenerateIdsAt(ps, gen, k);
  }

  /** With distinct old ids, the shared map sends a project's old id to its new id. */
  lemma IdMapAtProject(ps: seq<Project>, gen: nat -> Id, j: nat)
    requires j < |ps| && Distinct(BatchIds(ps))
    ensures ps[j].id in IdMap(ps, gen) && IdMap(ps, gen)[ps[j].id] == gen(Offset(ps, j))
  {
    OffsetLocatesProject(ps, j);
    FillMapDistinct(BatchIds(ps), gen, Offset(ps, j));
  }

  /** When no key repeats, each key is sent to the id generated at its own position. */
  lemma FillMapDistinct(keys: seq<Id>, gen: nat -> Id, o: nat)
    requires o < |keys| && Distinct(keys)
    ensures keys[o] in FillMap(keys, gen, 0, map[]) && FillMap(keys, gen, 0, map[])[keys[o]] == gen(o)
  {
    DistinctAfter(keys, o);
    FillMapLastWins(keys, gen, 0, map[], o);
  }

  /** A parent link naming nothing in the batch (or nothing at all) becomes "no parent". */
  lemma ParentOutsideBatchBecomesRoot(ps: seq<Project>, gen: nat -> Id, k: nat)
    requires k < |ps|
    requires !(ps[k].parentId.Some? && ps[k].parentId.value in BatchIds(ps))
    ensures RegenerateIds(ps, gen)[k].parentId.None?
  {
    RegenerateIdsAt(ps, gen, k);
  }

  /** A batch in which a canvas reuses its project's parent's id. */
  const SharedMapBatch: seq<Project> := [
    Project("a", "A", [], None),
    Project("b", "B", [Canvas("a", "T", Note, 0, None, None, None)], Some("a"))
  ]

  /**
   * With one map for every kind of id, the canvas overwrites the project's
   * entry: project "b" is re-attached to the canvas's new id instead of to
   * project "a"'s, so it no longer has a parent in the workspace.
   */
  lemma SharedMapReattachesToCanvas(gen: nat -> Id)
    requires gen(0) != gen(2) && gen(2) != ""
    ensures RegenerateIds(SharedMapBatch, gen)[1].parentId == Some(gen(2))
    ensures RegenerateIds(SharedMapBatch, gen)[0].id == gen(0)
  {
    var keys := BatchIds(SharedMapBatch);
    assert keys == ["a", "b", "a"];
    FillMapLastWins(keys, gen, 0, map[], 2);
    RegenerateIdsAt(SharedMapBatch, gen, 0);
    RegenerateIdsAt(SharedMapBatch, gen, 1);
  }

  /** Every id anywhere in a workspace: projects, canvases and blocks. */
  function AllIds(ps: seq<Project>): set<Id> {
    set k | 0 <= k < |BatchIds(ps)| :: BatchIds(ps)[k]
  }

  /**
   * The oracle's first `n` ids are non-empty, pairwise distinct, and avoid
   * `used` (the source's timestamp-plus-random ids only make this likely).
   */
  ghost predicate FreshFor(gen: nat -> Id, n: nat, used: set<Id>) {
    && (forall i, j :: 0 <= i < n && 0 <= j < n && gen(i) == gen(j) ==> i == j)
    && (forall i :: 0 <= i < n ==> gen(i) !in used && gen(i) != "")
  }

  /** What the import file parsed into, as far as import validation can tell. */
  datatype ImportItem =
    | WellFormed(project: Project)        // an element shaped like a project
    | Incomplete(hasKeys: bool)           // an object that is not a project; `hasKeys`: it carries `id`, `name` and `canvases`
    | Primitive                            // null, a number, a string, ...

  datatype ImportDoc =
    | Unparsable                           // JSON.parse threw
    | NotAnArray
    | Items(items: seq<ImportItem>)

  /** Why an import changed nothing. */
  datatype ImportError =
    | InvalidOrEmpty     // not an array, or an empty one
    | NotAnExport        // the first element lacks `id`, `name` or `canvases`
    | ImportFailed       // parsing or regeneration threw
    | OutsideModel       // an element is an object that is not a project; see `ImportDocument`

  /** The projects of a document whose every element is well formed. */
  function Batch(items: seq<ImportItem>): seq<Project>
    requires forall k :: 0 <= k < |items| ==> items[k].WellFormed?
  {
    seq(|items|, k requires 0 <= k < |items| => items[k].project)
  }

  /**
   * `handleImportProject`: validate, regenerate the ids, append. The key
   * test on a primitive first element throws, and so does pass 1's id
   * assignment on a later one (module code is strict). An object that passed
   * or skipped validation without being a project is regenerated like a
   * project: depending on its fields pass 1 throws or the object is appended
   * as it is; neither outcome is represented here, and both give
   * `OutsideModel`.
   */
  function ImportDocument(ws: seq<Project>, doc: ImportDoc, gen: nat -> Id): (r: Result<seq<Project>, ImportError>)
    ensures doc.Unparsable? ==> r == Failure(ImportFailed)
    ensures doc.NotAnArray? || doc == Items([]) ==> r == Failure(InvalidOrEmpty)
    ensures doc.Items? && |doc.items| > 0 && doc.items[0] == Incomplete(false) ==> r == Failure(NotAnExport)
    ensures doc.Items? && |doc.items| > 0 && doc.items[0] != Incomplete(false) ==>
      ((exists k :: 0 <= k < |doc.items| && doc.items[k].Primitive?) <==> r == Failure(ImportFailed))
    ensures r == Failure(OutsideModel) <==>
      && doc.Items? && |doc.items| > 0 && doc.items[0] != Incomplete(false)
      && (forall k :: 0 <= k < |doc.items| ==> !doc.items[k].Primitive?)
      && (exists k :: 0 <= k < |doc.items| && doc.items[k].Incomplete?)
    ensures r.Success? <==> doc.Items? && |doc.items| > 0 && forall k :: 0 <= k < |doc.items| ==> doc.items[k].WellFormed?
    ensures r.Success? ==>
      && |r.value| == |ws| + |doc.items|
      && r.value[..|ws|] == ws
      && r.value[|ws|..] == RegenerateIds(Batch(doc.items), gen)
  {
    match doc
    case Unparsable => Failure(ImportFailed)
    case NotAnArray => Failure(InvalidOrEmpty)
    case Items(items) =>
      if |items| == 0 then Failure(InvalidOrEmpty)
      else if items[0] == Incomplete(false) then Failure(NotAnExport)
      else if exists k :: 0 <= k < |items| && items[k].Primitive? then Failure(ImportFailed)
      else if exists k :: 0 <= k < |items| && items[k].Incomplete? then Failure(OutsideModel)
      else Success(ws + RegenerateIds(Batch(items), gen))
  }

  /**
   * Only the first element is checked: a later element lacking the keys is
   * not reported as a format error but goes on to regeneration.
   */
  lemma OnlyFirstElementValidated(ws: seq<Project>, p: Project, gen: nat -> Id)
    ensures ImportDocument(ws, Items([WellFormed(p), Incomplete(false)]), gen) == Failure(OutsideModel)
  {
    var items := [WellFormed(p), Incomplete(false)];
    assert items[1].Incomplete?;
  }

  /**
   * A successful import adds only new ids: the batch's ids are pairwise
   * distinct and none of them was in the workspace before.
   */
  lemma ImportIdsAreFresh(ws: seq<Project>, doc: ImportDoc, gen: nat -> Id)
    requires ImportDocument(ws, doc, gen).Success?
    requires FreshFor(gen, |BatchIds(Batch(doc.items))|, AllIds(ws))
    ensures var added := ImportDocument(ws, doc, gen).value[|ws|..];
      Distinct(BatchIds(added)) && forall k :: 0 <= k < |BatchIds(added)| ==> BatchIds(added)[k] !in AllIds(ws)
  {
    var batch := Batch(doc.items);
    var added := ImportDocument(ws, doc, gen).value[|ws|..];
    assert added == RegenerateIds(batch, gen);
    InjectiveRangeDistinct(gen, 0, |BatchIds(batch)|);
  }
}
