/**
 * The one-off migration of a workspace saved by an older version, in which
 * canvases had no type tag (and possibly no block list or playground
 * buffers). It runs once, on the loaded workspace.
 */
module Migration {
  import opened Wrappers
  import opened Types

  /** A canvas as an older version may have stored it: the type tag may be missing. */
  datatype StoredCanvas = StoredCanvas(
    id: Id,
    title: string,
    kind: Option<CanvasType>,
    createdAt: int,
    isPinned: Option<bool>,
    blocks: Option<seq<Block>>,
    playgroundContent: Option<PlaygroundContent>)

  datatype StoredProject = StoredProject(id: Id, name: string, canvases: seq<StoredCanvas>, parentId: Option<Id>)

  /** Some canvas of some project has no type tag: the migration's guard. */
  predicate NeedsMigration(ps: seq<StoredProject>) {
    exists i, j :: 0 <= i < |ps| && 0 <= j < |ps[i].canvases| && ps[i].canvases[j].kind.None?
  }

  /** Every canvas carries its type, its block list and its playground buffers. */
  predicate Complete(c: StoredCanvas) {
    c.kind.Some? && c.blocks.Some? && c.playgroundContent.Some?
  }

  /**
   * One canvas migrated: a missing type becomes NOTE, a missing block list
   * becomes empty, missing playground buffers become three empty buffers;
   * whatever is present is kept as it is.
   */
  function MigrateCanvas(c: StoredCanvas): (r: StoredCanvas)
    ensures Complete(r)
    ensures r.kind == (if c.kind.Some? then c.kind else Some(Note))
    ensures r.blocks == (if c.blocks.Some? then c.blocks else Some([]))
    ensures r.playgroundContent == (if c.playgroundContent.Some? then c.playgroundContent else Some(EmptyPlayground))
    ensures r.(kind := c.kind, blocks := c.blocks, playgroundContent := c.playgroundContent) == c
    ensures Complete(c) ==> r == c
  {
    c.(kind := Some(c.kind.GetOr(Note)),
       blocks := Some(c.blocks.GetOr([])),
       playgroundContent := Some(c.playgroundContent.GetOr(EmptyPlayground)))
  }

  function MigrateProject(p: StoredProject): (r: StoredProject)
    ensures r.(canvases := p.canvases) == p
    ensures |r.canvases| == |p.canvases|
    ensures forall j :: 0 <= j < |p.canvases| ==> r.canvases[j] == MigrateCanvas(p.canvases[j])
  {
    p.(canvases := seq(|p.canvases|, j requires 0 <= j < |p.canvases| => MigrateCanvas(p.canvases[j])))
  }

  /** The migration effect: when some canvas lacks a type, every canvas of every project is completed. */
  function Migrate(ps: seq<StoredProject>): (r: seq<StoredProject>)
    ensures !NeedsMigration(ps) ==> r == ps
    ensures NeedsMigration(ps) ==>
      && |r| == |ps|
      && forall i :: 0 <= i < |ps| ==> r[i] == MigrateProject(ps[i])
  {
    if NeedsMigration(ps) then seq(|ps|, i requires 0 <= i < |ps| => MigrateProject(ps[i]))
    else ps
  }

  /** After the migration no canvas lacks a type: the guard is false on its output. */
  lemma MigratedNeedsNothing(ps: seq<StoredProject>)
    ensures !NeedsMigration(Migrate(ps))
  {
    var r := Migrate(ps);
    if NeedsMigration(ps) {
      forall i, j | 0 <= i < |r| && 0 <= j < |r[i].canvases| ensures r[i].canvases[j].kind.Some? {
        assert r[i].canvases[j] == MigrateCanvas(ps[i].canvases[j]);
      }
    }
  }

  /** Migrating twice is migrating once. */
  lemma MigrateIdempotent(ps: seq<StoredProject>)
    ensures Migrate(Migrate(ps)) == Migrate(ps)
  {
    MigratedNeedsNothing(ps);
  }

  /** When the guard fires, every canvas comes out complete. */
  lemma MigrateCompletes(ps: seq<StoredProject>)
    requires NeedsMigration(ps)
    ensures forall i, j :: 0 <= i < |Migrate(ps)| && 0 <= j < |Migrate(ps)[i].canvases| ==> Complete(Migrate(ps)[i].canvases[j])
  {
  }

  /**
   * The guard looks only at the type tag: a typed canvas without a block list
   * is left without one.
   */
  lemma TypedWorkspaceUntouched(c: StoredCanvas)
    requires c.kind.Some? && c.blocks.None?
    ensures Migrate([StoredProject("p", "P", [c], None)])[0].canvases[0].blocks.None?
  {
    assert !NeedsMigration([StoredProject("p", "P", [c], None)]);
  }

  /** The stored form of a current canvas: its type tag is present. */
  function Store(c: Canvas): (s: StoredCanvas)
    ensures s.kind == Some(c.kind)
  {
    StoredCanvas(c.id, c.title, Some(c.kind), c.createdAt, c.isPinned, c.blocks, c.playgroundContent)
  }

  function StoreProject(p: Project): (s: StoredProject)
    ensures |s.canvases| == |p.canvases|
    ensures forall j :: 0 <= j < |p.canvases| ==> s.canvases[j] == Store(p.canvases[j])
  {
    StoredProject(p.id, p.name, seq(|p.canvases|, j requires 0 <= j < |p.canvases| => Store(p.canvases[j])), p.parentId)
  }

  function StoreAll(ps: seq<Project>): (s: seq<StoredProject>)
    ensures |s| == |ps|
    ensures forall i :: 0 <= i < |ps| ==> s[i] == StoreProject(ps[i])
  {
    seq(|ps|, i requires 0 <= i < |ps| => StoreProject(ps[i]))
  }

  /** A workspace written by the current version is never migrated. */
  lemma CurrentWorkspaceNotMigrated(ps: seq<Project>)
    ensures Migrate(StoreAll(ps)) == StoreAll(ps)
  {
  }

  /** Reading a stored canvas back as a current one, defined when it has a type tag. */
  function Load(s: StoredCanvas): (c: Canvas)
    requires s.kind.Some?
    ensures Store(c) == s
  {
    Canvas(s.id, s.title, s.kind.value, s.createdAt, s.isPinned, s.blocks, s.playgroundContent)
  }

  /** Loading undoes storing. */
  lemma LoadStore(c: Canvas)
    ensures Load(Store(c)) == c
  {
  }
}
