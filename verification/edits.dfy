/**
 * The canvas and block handlers of the workspace. Each acts on the canvases
 * of the active project only, and does nothing when there is no active
 * project. New ids and the creation time are parameters.
 */
module Edits {
  import opened Wrappers
  import opened Types
  import Seqs

  // ---------------------------------------------------------------------------
  // Defaults of new canvases and blocks

  const NewNoteTitle: string := "Untitled Note"
  const NewNoteHeading: string := "New Note"
  const NewPlaygroundTitle: string := "New Playground"
  const StarterPlayground: PlaygroundContent :=
    PlaygroundContent("<h1>Hello, World!</h1>", "h1 { color: blue; }", "console.log(\"Hello from the playground!\");")

  /** The stored payload of a new CODE block. */
  const StarterCode: string := "{\"language\":\"javascript\",\"code\":\"// Start coding...\"}"

  /**
   * A new canvas of the given type. A note starts with one heading block and
   * no playground buffers; a playground starts with the starter buffers and
   * no block list.
   */
  function NewCanvas(kind: CanvasType, canvasId: Id, blockId: Id, now: int): (c: Canvas)
    ensures c.id == canvasId && c.kind == kind && c.createdAt == now && c.isPinned.None?
    ensures kind == Note ==>
      c.title == NewNoteTitle && c.blocks == Some([Block(blockId, Heading, NewNoteHeading)]) && c.playgroundContent.None?
    ensures kind == Playground ==>
      c.title == NewPlaygroundTitle && c.blocks.None? && c.playgroundContent == Some(StarterPlayground)
  {
    match kind
    case Note => Canvas(canvasId, NewNoteTitle, Note, now, None, Some([Block(blockId, Heading, NewNoteHeading)]), None)
    case Playground => Canvas(canvasId, NewPlaygroundTitle, Playground, now, None, None, Some(StarterPlayground))
  }

  /** A new block: empty content, except CODE blocks, which start with the starter payload. */
  function NewBlock(kind: BlockType, blockId: Id): (b: Block)
    ensures b.id == blockId && b.kind == kind
    ensures b.content == (if kind == Code then StarterCode else "")
  {
    Block(blockId, kind, if kind == Code then StarterCode else "")
  }

  // ---------------------------------------------------------------------------
  // Edits of a block list

  /** The block-list edits of the note handlers. */
  datatype BlockEdit =
    | Replace(block: Block)      // `updateBlock`: the block with this id is replaced
    | Append(block: Block)       // `addBlock`
    | Remove(blockId: Id)        // `deleteBlock`

  function KeepBlock(blockId: Id): Block -> bool {
    (b: Block) => b.id != blockId
  }

  /** Every block whose id is `block.id` replaced by `block`, in place. */
  function ReplaceBlock(bs: seq<Block>, block: Block): (r: seq<Block>)
    ensures |r| == |bs|
    ensures forall i :: 0 <= i < |bs| ==> (bs[i].id == block.id ==> r[i] == block) && (bs[i].id != block.id ==> r[i] == bs[i])
  {
    seq(|bs|, i requires 0 <= i < |bs| => if bs[i].id == block.id then block else bs[i])
  }

  function EditBlocks(e: BlockEdit, bs: seq<Block>): seq<Block> {
    match e
    case Replace(block) => ReplaceBlock(bs, block)
    case Append(block) => bs + [block]
    case Remove(blockId) => Seqs.Filter(bs, KeepBlock(blockId))
  }

  /** Replacing is idempotent: the second update of the same block changes nothing. */
  lemma ReplaceBlockIdempotent(bs: seq<Block>, block: Block)
    ensures ReplaceBlock(ReplaceBlock(bs, block), block) == ReplaceBlock(bs, block)
  {
  }

  /** Deleting by id keeps, in order, exactly the blocks with another id. */
  lemma RemoveBlockKeepsOthers(bs: seq<Block>, blockId: Id)
    ensures forall i :: 0 <= i < |EditBlocks(Remove(blockId), bs)| ==> EditBlocks(Remove(blockId), bs)[i].id != blockId
    ensures forall i :: 0 <= i < |bs| && bs[i].id != blockId ==> bs[i] in EditBlocks(Remove(blockId), bs)
    ensures forall i :: 0 <= i < |EditBlocks(Remove(blockId), bs)| ==> EditBlocks(Remove(blockId), bs)[i] in bs
  {
    Seqs.FilterMembers(bs, KeepBlock(blockId));
  }

  /** Deleting a block just added under a new id gives the block list back. */
  lemma {:induction false} AppendThenRemove(bs: seq<Block>, block: Block)
    requires forall i :: 0 <= i < |bs| ==> bs[i].id != block.id
    ensures EditBlocks(Remove(block.id), EditBlocks(Append(block), bs)) == bs
  {
    Seqs.FilterConcat(bs, [block], KeepBlock(block.id));
    Seqs.FilterAll(bs, KeepBlock(block.id));
    assert Seqs.Filter([block], KeepBlock(block.id)) == [];
  }

  // ---------------------------------------------------------------------------
  // Edits of a canvas list

  /** The canvas-list edits of the workspace handlers. */
  datatype CanvasEdit =
    | AddCanvas(canvas: Canvas)                          // prepend
    | DropCanvas(canvasId: Id)                            // every canvas with this id
    | TogglePin(canvasId: Id)
    | Retitle(canvasId: Id, title: string)
    | SetPlayground(canvasId: Id, content: PlaygroundContent)
    | OnBlocks(canvasId: Id, edit: BlockEdit)             // only canvases that have a block list
    | Reorder(canvasId: Id, start: nat, end: nat)

  function KeepCanvas(canvasId: Id): Canvas -> bool {
    (c: Canvas) => c.id != canvasId
  }

  /** A canvas with its pin flag flipped; an absent flag counts as unpinned. */
  function Toggled(c: Canvas): (r: Canvas)
    ensures Pinned(r) <==> !Pinned(c)
    ensures r.isPinned.Some?
    ensures r.(isPinned := c.isPinned) == c
  {
    c.(isPinned := Some(!Pinned(c)))
  }

  /** The block list a reorder writes: the found canvas's blocks with one moved; none when nothing moves. */
  function ReorderedBlocks(cs: seq<Canvas>, canvasId: Id, start: nat, end: nat): Option<seq<Block>>
    requires ReorderInRange(cs, canvasId, start, end)
  {
    match FindCanvas(cs, canvasId)
    case None => None
    case Some(j) =>
      if cs[j].blocks.None? then None else Some(Seqs.Move(cs[j].blocks.value, start, end))
  }

  /** The reorder's indices are positions of the block list it moves (the caller passes rendered indices). */
  predicate ReorderInRange(cs: seq<Canvas>, canvasId: Id, start: nat, end: nat) {
    match FindCanvas(cs, canvasId)
    case None => true
    case Some(j) => cs[j].blocks.Some? ==> start < |cs[j].blocks.value| && end < |cs[j].blocks.value|
  }

  /** What an edit needs of the canvas list it is applied to. */
  predicate Applicable(e: CanvasEdit, cs: seq<Canvas>) {
    e.Reorder? ==> ReorderInRange(cs, e.canvasId, e.start, e.end)
  }

  /** One canvas under an in-place edit (every edit but add, drop and reorder). */
  function EditCanvas(e: CanvasEdit, c: Canvas): Canvas
    requires !e.AddCanvas? && !e.DropCanvas? && !e.Reorder?
  {
    if c.id != e.canvasId then c
    else match e
      case TogglePin(_) => Toggled(c)
      case Retitle(_, title) => c.(title := title)
      case SetPlayground(_, content) => if c.kind == Playground then c.(playgroundContent := Some(content)) else c
      case OnBlocks(_, edit) => if c.blocks.Some? then c.(blocks := Some(EditBlocks(edit, c.blocks.value))) else c
  }

  /** A canvas list under an edit, as the handler's inner callback computes it. */
  function EditCanvases(e: CanvasEdit, cs: seq<Canvas>): seq<Canvas>
    requires Applicable(e, cs)
  {
    match e
    case AddCanvas(c) => [c] + cs
    case DropCanvas(canvasId) => Seqs.Filter(cs, KeepCanvas(canvasId))
    case Reorder(canvasId, start, end) =>
      (match ReorderedBlocks(cs, canvasId, start, end)
       case None => cs
       case Some(bs) => seq(|cs|, j requires 0 <= j < |cs| => if cs[j].id == canvasId then cs[j].(blocks := Some(bs)) else cs[j]))
    case _ => seq(|cs|, j requires 0 <= j < |cs| => EditCanvas(e, cs[j]))
  }

  /**
   * In-place edits change only the canvases with the named id, and keep the
   * list's length and order.
   */
  lemma InPlaceEditsTouchOnlyNamed(e: CanvasEdit, cs: seq<Canvas>)
    requires !e.AddCanvas? && !e.DropCanvas? && !e.Reorder?
    ensures |EditCanvases(e, cs)| == |cs|
    ensures forall j :: 0 <= j < |cs| && cs[j].id != e.canvasId ==> EditCanvases(e, cs)[j] == cs[j]
    ensures forall j :: 0 <= j < |cs| ==> EditCanvases(e, cs)[j].id == cs[j].id
  {
  }

  /** Toggling the pin flips exactly the named canvases' pin state and nothing else about them. */
  lemma TogglePinFlips(cs: seq<Canvas>, canvasId: Id)
    ensures var r := EditCanvases(TogglePin(canvasId), cs);
      && |r| == |cs|
      && (forall j :: 0 <= j < |cs| && cs[j].id == canvasId ==> (Pinned(r[j]) <==> !Pinned(cs[j])) && r[j].(isPinned := cs[j].isPinned) == cs[j])
      && (forall j :: 0 <= j < |cs| && cs[j].id != canvasId ==> r[j] == cs[j])
  {
  }

  /**
   * Toggling twice restores every canvas's pin state; a canvas that had no
   * flag now carries an explicit `false`.
   */
  lemma TogglePinTwice(cs: seq<Canvas>, canvasId: Id)
    ensures var r := EditCanvases(TogglePin(canvasId), EditCanvases(TogglePin(canvasId), cs));
      && |r| == |cs|
      && (forall j :: 0 <= j < |cs| ==> (Pinned(r[j]) <==> Pinned(cs[j])))
      && (forall j :: 0 <= j < |cs| && cs[j].id == canvasId && cs[j].isPinned.None? ==> r[j].isPinned == Some(false))
  {
    var once := EditCanvases(TogglePin(canvasId), cs);
    var r := EditCanvases(TogglePin(canvasId), once);
    forall j | 0 <= j < |cs| ensures Pinned(r[j]) <==> Pinned(cs[j]) {
      assert once[j] == EditCanvas(TogglePin(canvasId), cs[j]);
      assert r[j] == EditCanvas(TogglePin(canvasId), once[j]);
    }
  }

  /** The playground buffers change only on playground canvases with the named id. */
  lemma SetPlaygroundOnlyOnPlaygrounds(cs: seq<Canvas>, canvasId: Id, content: PlaygroundContent)
    ensures var r := EditCanvases(SetPlayground(canvasId, content), cs);
      && |r| == |cs|
      && (forall j :: 0 <= j < |cs| ==>
            r[j] == if cs[j].id == canvasId && cs[j].kind == Playground then cs[j].(playgroundContent := Some(content)) else cs[j])
  {
  }

  /** Block edits reach only the named canvases that have a block list. */
  lemma BlockEditsNeedBlocks(cs: seq<Canvas>, canvasId: Id, edit: BlockEdit)
    ensures var r := EditCanvases(OnBlocks(canvasId, edit), cs);
      && |r| == |cs|
      && (forall j :: 0 <= j < |cs| && (cs[j].id != canvasId || cs[j].blocks.None?) ==> r[j] == cs[j])
      && (forall j :: 0 <= j < |cs| && cs[j].id == canvasId && cs[j].blocks.Some? ==>
            r[j] == cs[j].(blocks := Some(EditBlocks(edit, cs[j].blocks.value))))
  {
  }

  /**
   * Reordering moves one block of the first canvas with the named id, keeping
   * the others in their relative order; every canvas with that id receives
   * the reordered list, and the others are untouched. Moving a block onto its
   * own position changes nothing.
   */
  lemma ReorderMovesOneBlock(cs: seq<Canvas>, canvasId: Id, start: nat, end: nat, k: nat)
    requires ReorderInRange(cs, canvasId, start, end)
    requires FindCanvas(cs, canvasId) == Some(k) && cs[k].blocks.Some?
    ensures var r := EditCanvases(Reorder(canvasId, start, end), cs);
      var bs := cs[k].blocks.value;
      && |r| == |cs|
      && r[k].blocks.Some?
      && |r[k].blocks.value| == |bs|
      && r[k].blocks.value[end] == bs[start]
      && Seqs.RemoveAt(r[k].blocks.value, end) == Seqs.RemoveAt(bs, start)
      && multiset(r[k].blocks.value) == multiset(bs)
      && (start == end ==> r[k] == cs[k])
      && (forall j :: 0 <= j < |cs| && cs[j].id != canvasId ==> r[j] == cs[j])
      && (forall j :: 0 <= j < |cs| && cs[j].id == canvasId ==> r[j] == cs[j].(blocks := r[k].blocks))
  {
  }

  /** Nothing moves when no canvas has the id or the first one has no block list. */
  lemma ReorderWithoutBlocksIsNoOp(cs: seq<Canvas>, canvasId: Id, start: nat, end: nat)
    requires FindCanvas(cs, canvasId).None? || cs[FindCanvas(cs, canvasId).value].blocks.None?
    ensures EditCanvases(Reorder(canvasId, start, end), cs) == cs
  {
  }

  // ---------------------------------------------------------------------------
  // The handlers on the workspace

  /** Only the canvases of projects with the active id may differ; ids, names and links are kept. */
  predicate OnlyActiveCanvases(ps: seq<Project>, active: Id, r: seq<Project>) {
    && |r| == |ps|
    && (forall k :: 0 <= k < |ps| ==> r[k].(canvases := ps[k].canvases) == ps[k])
    && (forall k :: 0 <= k < |ps| && ps[k].id != active ==> r[k] == ps[k])
  }

  /** The edit is applicable to every active project's canvases. */
  predicate ApplicableToActive(ps: seq<Project>, active: Option<Id>, e: CanvasEdit) {
    forall k :: 0 <= k < |ps| && Present(active) && ps[k].id == active.value ==> Applicable(e, ps[k].canvases)
  }

  /**
   * The shared shape of every handler: return when there is no active project
   * (`!activeProjectId`), else apply the edit to the canvases of each project
   * with the active id.
   */
  function ApplyToActive(ps: seq<Project>, active: Option<Id>, e: CanvasEdit): (r: seq<Project>)
    requires ApplicableToActive(ps, active, e)
    ensures !Present(active) ==> r == ps
    ensures Present(active) ==> OnlyActiveCanvases(ps, active.value, r)
    ensures Present(active) ==> forall k :: 0 <= k < |ps| && ps[k].id == active.value ==> r[k].canvases == EditCanvases(e, ps[k].canvases)
  {
    if !Present(active) then ps
    else
      seq(|ps|, k requires 0 <= k < |ps| =>
        if ps[k].id == active.value then ps[k].(canvases := EditCanvases(e, ps[k].canvases)) else ps[k])
  }

  /** The workspace and the selected canvas after a canvas handler. */
  datatype CanvasOutcome = CanvasOutcome(projects: seq<Project>, activeCanvas: Option<Id>)

  /**
   * `handleAddCanvas`: the new canvas goes first in the active project's list
   * and becomes the selected canvas.
   */
  function AddCanvasHandler(ps: seq<Project>, active: Option<Id>, activeCanvas: Option<Id>,
                            kind: CanvasType, canvasId: Id, blockId: Id, now: int): (o: CanvasOutcome)
    ensures !Present(active) ==> o == CanvasOutcome(ps, activeCanvas)
    ensures Present(active) ==>
      && o.activeCanvas == Some(canvasId)
      && OnlyActiveCanvases(ps, active.value, o.projects)
      && forall k :: 0 <= k < |ps| && ps[k].id == active.value ==>
           o.projects[k].canvases == [NewCanvas(kind, canvasId, blockId, now)] + ps[k].canvases
  {
    if !Present(active) then CanvasOutcome(ps, activeCanvas)
    else CanvasOutcome(ApplyToActive(ps, active, AddCanvas(NewCanvas(kind, canvasId, blockId, now))), Some(canvasId))
  }

  /**
   * `handleDeleteCanvas`: drop every canvas with the id from the active
   * project; when it was the selected canvas, select the first remaining
   * canvas of (the first) active project, or none.
   */
  function DeleteCanvasHandler(ps: seq<Project>, active: Option<Id>, activeCanvas: Option<Id>, canvasId: Id): (o: CanvasOutcome)
    ensures !Present(active) ==> o == CanvasOutcome(ps, activeCanvas)
    ensures Present(active) ==>
      && OnlyActiveCanvases(ps, active.value, o.projects)
      && (forall k :: 0 <= k < |ps| && ps[k].id == active.value ==>
            o.projects[k].canvases == Seqs.Filter(ps[k].canvases, KeepCanvas(canvasId)))
      && (activeCanvas != Some(canvasId) ==> o.activeCanvas == activeCanvas)
      && (activeCanvas == Some(canvasId) ==> o.activeCanvas != Some(canvasId))
      && (activeCanvas == Some(canvasId) && o.activeCanvas.Some? ==>
            exists k, j :: 0 <= k < |ps| && ps[k].id == active.value && 0 <= j < |o.projects[k].canvases| &&
              o.projects[k].canvases[j].id == o.activeCanvas.value)
      && (activeCanvas == Some(canvasId) ==>
            match FindProject(ps, active.value)
            case None => o.activeCanvas.None?
            case Some(k) =>
              var remaining := o.projects[k].canvases;
              o.activeCanvas == if |remaining| > 0 then Some(remaining[0].id) else None)
  {
    if !Present(active) then CanvasOutcome(ps, activeCanvas)
    else
      var projects := ApplyToActive(ps, active, DropCanvas(canvasId));
      if activeCanvas != Some(canvasId) then CanvasOutcome(projects, activeCanvas)
      else match FindProject(ps, active.value)
        case None => CanvasOutcome(projects, None)
        case Some(k) =>
          var remaining := Seqs.Filter(ps[k].canvases, KeepCanvas(canvasId));
          assert projects[k].canvases == remaining;
          if |remaining| > 0 then CanvasOutcome(projects, Some(remaining[0].id)) else CanvasOutcome(projects, None)
  }

  /** Deleting the canvas just added, under an id no canvas of the active project had, gives the workspace back. */
  lemma AddThenDeleteCanvas(ps: seq<Project>, active: Option<Id>, activeCanvas: Option<Id>,
                            kind: CanvasType, canvasId: Id, blockId: Id, now: int)
    requires forall k, j :: 0 <= k < |ps| && 0 <= j < |ps[k].canvases| ==> ps[k].canvases[j].id != canvasId
    ensures var added := AddCanvasHandler(ps, active, activeCanvas, kind, canvasId, blockId, now);
      DeleteCanvasHandler(added.projects, active, added.activeCanvas, canvasId).projects == ps
  {
    if Present(active) {
      var added := AddCanvasHandler(ps, active, activeCanvas, kind, canvasId, blockId, now);
      var r := DeleteCanvasHandler(added.projects, active, added.activeCanvas, canvasId).projects;
      forall k | 0 <= k < |ps| ensures r[k] == ps[k] {
        if ps[k].id == active.value {
          var c := NewCanvas(kind, canvasId, blockId, now);
          assert added.projects[k].canvases == [c] + ps[k].canvases;
          Seqs.FilterConcat([c], ps[k].canvases, KeepCanvas(canvasId));
          Seqs.FilterAll(ps[k].canvases, KeepCanvas(canvasId));
          assert Seqs.Filter([c], KeepCanvas(canvasId)) == [];
          assert r[k].canvases == ps[k].canvases;
        }
      }
    }
  }

  /** `handleTogglePinCanvas`. */
  function TogglePinHandler(ps: seq<Project>, active: Option<Id>, canvasId: Id): seq<Project> {
    ApplyToActive(ps, active, TogglePin(canvasId))
  }

  /** `updateCanvasTitle`. */
  function UpdateTitleHandler(ps: seq<Project>, active: Option<Id>, canvasId: Id, title: string): seq<Project> {
    ApplyToActive(ps, active, Retitle(canvasId, title))
  }

  /** The last title written wins. */
  lemma UpdateTitleLastWins(ps: seq<Project>, active: Option<Id>, canvasId: Id, t1: string, t2: string)
    ensures UpdateTitleHandler(UpdateTitleHandler(ps, active, canvasId, t1), active, canvasId, t2)
         == UpdateTitleHandler(ps, active, canvasId, t2)
  {
    if Present(active) {
      var once := UpdateTitleHandler(ps, active, canvasId, t1);
      var twice := UpdateTitleHandler(once, active, canvasId, t2);
      var direct := UpdateTitleHandler(ps, active, canvasId, t2);
      forall k | 0 <= k < |ps| ensures twice[k] == direct[k] {
        if ps[k].id == active.value {
          var cs := ps[k].canvases;
          assert twice[k].canvases == EditCanvases(Retitle(canvasId, t2), EditCanvases(Retitle(canvasId, t1), cs));
          assert direct[k].canvases == EditCanvases(Retitle(canvasId, t2), cs);
        }
      }
    }
  }

  /** `handleUpdatePlaygroundContent`. */
  function UpdatePlaygroundHandler(ps: seq<Project>, active: Option<Id>, canvasId: Id, content: PlaygroundContent): seq<Project> {
    ApplyToActive(ps, active, SetPlayground(canvasId, content))
  }

  /** `updateBlock`. */
  function UpdateBlockHandler(ps: seq<Project>, active: Option<Id>, canvasId: Id, block: Block): seq<Project> {
    ApplyToActive(ps, active, OnBlocks(canvasId, Replace(block)))
  }

  /** `addBlock`: the new block goes last. */
  function AddBlockHandler(ps: seq<Project>, active: Option<Id>, canvasId: Id, kind: BlockType, blockId: Id): seq<Project> {
    ApplyToActive(ps, active, OnBlocks(canvasId, Append(NewBlock(kind, blockId))))
  }

  /** `deleteBlock`. */
  function DeleteBlockHandler(ps: seq<Project>, active: Option<Id>, canvasId: Id, blockId: Id): seq<Project> {
    ApplyToActive(ps, active, OnBlocks(canvasId, Remove(blockId)))
  }

  /** Deleting the block just added, under a new id, gives the workspace back. */
  lemma AddThenDeleteBlock(ps: seq<Project>, active: Option<Id>, canvasId: Id, kind: BlockType, blockId: Id)
    requires forall k, j :: 0 <= k < |ps| && 0 <= j < |ps[k].canvases| && ps[k].canvases[j].blocks.Some? ==>
      forall i :: 0 <= i < |ps[k].canvases[j].blocks.value| ==> ps[k].canvases[j].blocks.value[i].id != blockId
    ensures DeleteBlockHandler(AddBlockHandler(ps, active, canvasId, kind, blockId), active, canvasId, blockId) == ps
  {
    if Present(active) {
      var added := AddBlockHandler(ps, active, canvasId, kind, blockId);
      var r := DeleteBlockHandler(added, active, canvasId, blockId);
      forall k | 0 <= k < |ps| ensures r[k] == ps[k] {
        if ps[k].id == active.value {
          var cs := ps[k].canvases;
          var mid := added[k].canvases;
          assert mid == EditCanvases(OnBlocks(canvasId, Append(NewBlock(kind, blockId))), cs);
          assert r[k].canvases == EditCanvases(OnBlocks(canvasId, Remove(blockId)), mid);
          forall j | 0 <= j < |cs| ensures r[k].canvases[j] == cs[j] {
            if cs[j].id == canvasId && cs[j].blocks.Some? {
              AppendThenRemove(cs[j].blocks.value, NewBlock(kind, blockId));
            }
          }
        }
      }
    }
  }

  /** `reorderBlocks`, for the indices the canvas view passes. */
  function ReorderBlocksHandler(ps: seq<Project>, active: Option<Id>, canvasId: Id, start: nat, end: nat): seq<Project>
    requires ApplicableToActive(ps, active, Reorder(canvasId, start, end))
  {
    ApplyToActive(ps, active, Reorder(canvasId, start, end))
  }
}
