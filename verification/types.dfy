/** The entities of the workspace document: projects, canvases and blocks. */
module Types {
  import opened Wrappers

  /** Identifiers are opaque strings. */
  type Id = string

  /** The six kinds of block a note holds. */
  datatype BlockType = Text | Code | Pdf | Image | Todo | Heading

  /** The enum's string value, as stored in the serialized workspace. */
  function BlockTypeName(t: BlockType): (name: string)
    ensures |name| >= 3
  {
    match t
    case Text => "TEXT"
    case Code => "CODE"
    case Pdf => "PDF"
    case Image => "IMAGE"
    case Todo => "TODO"
    case Heading => "HEADING"
  }

  const AllBlockTypes: set<BlockType> := {Text, Code, Pdf, Image, Todo, Heading}

  /** There are exactly six block types, with distinct stored names. */
  lemma BlockTypesExhaustive()
    ensures forall t: BlockType :: t in AllBlockTypes
    ensures |AllBlockTypes| == 6
    ensures forall t, u :: BlockTypeName(t) == BlockTypeName(u) ==> t == u
  {
    forall t: BlockType ensures t in AllBlockTypes {
      match t
      case Text =>
      case Code =>
      case Pdf =>
      case Image =>
      case Todo =>
      case Heading =>
    }
  }

  /**
   * One unit of a note. Whatever the type, the payload is a single string:
   * plain text for TEXT/HEADING, an encoded record for TODO/CODE, a data URL for IMAGE/PDF.
   */
  datatype Block = Block(id: Id, kind: BlockType, content: string)

  /** The two kinds of canvas. */
  datatype CanvasType = Note | Playground

  const AllCanvasTypes: set<CanvasType> := {Note, Playground}

  /** There are exactly two canvas types. */
  lemma CanvasTypesExhaustive()
    ensures forall t: CanvasType :: t in AllCanvasTypes
    ensures |AllCanvasTypes| == 2
  {
    forall t: CanvasType ensures t in AllCanvasTypes {
      match t
      case Note =>
      case Playground =>
    }
  }

  /** The three independent source buffers of a playground. */
  datatype PlaygroundContent = PlaygroundContent(html: string, css: string, js: string)

  const EmptyPlayground := PlaygroundContent("", "", "")

  /**
   * A note or a playground. The type tag is required; the pin flag, the block
   * list and the playground buffers may each be absent. `createdAt` is the
   * creation time as a millisecond timestamp.
   */
  datatype Canvas = Canvas(
    id: Id,
    title: string,
    kind: CanvasType,
    createdAt: int,
    isPinned: Option<bool>,
    blocks: Option<seq<Block>>,
    playgroundContent: Option<PlaygroundContent>)

  /** A project: a node of the forest, linked to its parent by id, owning its canvases. */
  datatype Project = Project(id: Id, name: string, canvases: seq<Canvas>, parentId: Option<Id>)

  /** JavaScript truthiness of a nullable id: `null` and the empty string are both falsy. */
  predicate Present(o: Option<Id>) {
    o.Some? && o.value != ""
  }

  /** The pin flag read as a boolean: an absent flag is falsy. */
  predicate Pinned(c: Canvas) {
    c.isPinned == Some(true)
  }

  /** The ids of a list of projects. */
  function ProjectIds(ps: seq<Project>): (ids: set<Id>)
    ensures forall k :: 0 <= k < |ps| ==> ps[k].id in ids
    ensures forall x :: x in ids ==> exists k :: 0 <= k < |ps| && ps[k].id == x
  {
    set k | 0 <= k < |ps| :: ps[k].id
  }

  /** No two projects share an id. */
  predicate UniqueIds(ps: seq<Project>) {
    forall i, j :: 0 <= i < |ps| && 0 <= j < |ps| && ps[i].id == ps[j].id ==> i == j
  }

  /** The first project with the given id (`Array.prototype.find`). */
  function FindProject(ps: seq<Project>, id: Id): (r: Option<nat>)
    ensures r.Some? ==> r.value < |ps| && ps[r.value].id == id
    ensures r.Some? ==> forall j :: 0 <= j < r.value ==> ps[j].id != id
    ensures r.None? ==> forall j :: 0 <= j < |ps| ==> ps[j].id != id
  {
    if |ps| == 0 then None
    else if ps[0].id == id then Some(0)
    else match FindProject(ps[1..], id)
      case None => None
      case Some(j) => Some(j + 1)
  }

  /** The first canvas with the given id, if any (`Array.prototype.find`). */
  function FindCanvas(cs: seq<Canvas>, canvasId: Id): (r: Option<nat>)
    ensures r.Some? ==> r.value < |cs| && cs[r.value].id == canvasId
    ensures r.Some? ==> forall j :: 0 <= j < r.value ==> cs[j].id != canvasId
    ensures r.None? ==> forall j :: 0 <= j < |cs| ==> cs[j].id != canvasId
  {
    if |cs| == 0 then None
    else if cs[0].id == canvasId then Some(0)
    else match FindCanvas(cs[1..], canvasId)
      case None => None
      case Some(j) => Some(j + 1)
  }
}
