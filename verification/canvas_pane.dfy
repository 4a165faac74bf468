/**
 * The canvas pane: which editor a canvas opens in, and the drag-and-drop
 * gesture that reorders a note's blocks.
 */
module CanvasPane {
  import opened Wrappers
  import opened Types
  import Seqs

  /** What the pane shows for a canvas. */
  datatype View =
    | PlaygroundView(canvasId: Id)
    | NoteView(canvasId: Id, blocks: seq<Block>)  // one editor per block, in order

  /** A playground opens the playground editor; a note lists its blocks, none when it has no list. */
  function ViewOf(c: Canvas): (v: View)
    ensures v.PlaygroundView? <==> c.kind == Playground
    ensures v.canvasId == c.id
    ensures v.NoteView? ==> v.blocks == c.blocks.GetOr([])
  {
    if c.kind == Playground then PlaygroundView(c.id) else NoteView(c.id, c.blocks.GetOr([]))
  }

  /**
   * The gesture's two remembered indices: where the drag started and the
   * last block it entered.
   */
  datatype Drag = Drag(item: Option<nat>, over: Option<nat>)

  const Idle := Drag(None, None)

  /** A block starts being dragged. */
  function Start(d: Drag, index: nat): (r: Drag)
    ensures r.item == Some(index) && r.over == d.over
  {
    d.(item := Some(index))
  }

  /** The drag passes over a block. */
  function Enter(d: Drag, index: nat): (r: Drag)
    ensures r.over == Some(index) && r.item == d.item
  {
    d.(over := Some(index))
  }

  /** What ending the gesture does: the state it leaves and the reorder it requests, if any. */
  datatype Ending = Ending(next: Drag, reorder: Option<(nat, nat)>)

  /**
   * A drop or a drag end: a reorder from the start block to the last entered
   * one is requested when both are known and differ; both are then forgotten.
   */
  function End(d: Drag): (e: Ending)
    ensures e.next == Idle
    ensures e.reorder.Some? <==> d.item.Some? && d.over.Some? && d.item != d.over
    ensures e.reorder.Some? ==> e.reorder.value == (d.item.value, d.over.value)
  {
    var reorder := if d.item.Some? && d.over.Some? && d.item != d.over then Some((d.item.value, d.over.value)) else None;
    Ending(Idle, reorder)
  }

  /** Entering blocks one after another. */
  function EnterAll(d: Drag, path: seq<nat>): (r: Drag)
    ensures r.item == d.item
    ensures |path| > 0 ==> r.over == Some(path[|path| - 1])
    ensures |path| == 0 ==> r == d
    decreases |path|
  {
    if |path| == 0 then d else Enter(EnterAll(d, path[..|path| - 1]), path[|path| - 1])
  }

  /**
   * A drop is followed by the drag end on the dragged block; both end the
   * gesture, and the second requests nothing.
   */
  lemma DropThenDragEnd(d: Drag)
    ensures End(End(d).next).reorder.None?
    ensures End(End(d).next).next == Idle
  {
  }

  /**
   * A whole gesture from an idle pane: start on block `from`, pass over the
   * blocks of `path`, let go. The request moves `from` to the last block
   * entered, unless that is `from` itself.
   */
  lemma {:induction false} Gesture(from: nat, path: seq<nat>)
    requires |path| > 0
    ensures var last := path[|path| - 1];
      End(EnterAll(Start(Idle, from), path)).reorder == if last == from then None else Some((from, last))
  {
  }

  /** A drop with no drag started in the pane (a file dragged in, say) requests nothing. */
  lemma ForeignDropIgnored(path: seq<nat>)
    ensures End(EnterAll(Idle, path)).reorder.None?
  {
  }

  /**
   * Indices that come from the blocks shown stay in range, so the request
   * is one the block list can apply: it moves exactly the dragged block.
   */
  lemma GestureInRange(c: Canvas, from: nat, path: seq<nat>)
    requires c.kind == Note && |path| > 0
    requires from < |ViewOf(c).blocks|
    requires forall k :: 0 <= k < |path| ==> path[k] < |ViewOf(c).blocks|
    ensures var e := End(EnterAll(Start(Idle, from), path));
      e.reorder.Some? ==>
        && e.reorder.value.0 < |c.blocks.value| && e.reorder.value.1 < |c.blocks.value|
        && Seqs.Move(c.blocks.value, e.reorder.value.0, e.reorder.value.1)[e.reorder.value.1] == c.blocks.value[from]
  {
    Gesture(from, path);
  }
}
