# Atelier workspace model

A Dafny model of the document core of Atelier, a browser notebook. A workspace
is a flat list of projects. Projects form a forest through `parentId` links.
Each project owns an ordered list of canvases: notes made of typed blocks, or
HTML/CSS/JS playgrounds. The model covers:

- the entities (`Types`) and the seed workspace of a first visit (`Constants`, `Seed`);
- the project forest (`Forest`): cascade delete with the fallback selection, subtree export, adding and renaming projects;
- import (`Import`): validation, the two-pass id regeneration with its one shared id map, and appending the batch;
- the one-off migration of workspaces saved without canvas types (`Migration`);
- the canvas and block handlers of the active project (`Edits`), built on the splice helpers of `Seqs`;
- the selection state and the effect that repairs it (`Workspace`);
- the derived views:
  - the library tree, rename rule and save caption (`Library`);
  - the notebook's sort, search, pinned split and previews (`Notebook`);
  - the canvas pane's editor choice and drag-to-reorder gesture (`CanvasPane`);
- the schema-tolerant codecs of CODE and TODO blocks (`CodeBlock`, `TodoBlock`);
- the timer-driven state machines:
  - the playground's 500 ms commit debounce and console filter (`Playground`);
  - the storage hook's "Saving..." indicator (`Persistence`).

Modelling conventions:

- **JSON.** `JSON.parse` and `JSON.stringify` are parameters (`parse: string -> Option<Json>`, `stringify: Json -> string`). A round trip `parse(stringify(v)) == Some(v)` is assumed only for the value a lemma needs (`Json.RoundTrips`).
- **Fresh ids.** Ids made from `Date.now()` and `Math.random()` come from parameters. Import uses an oracle `gen: nat -> Id`, where `gen(i)` is the i-th id generated. Distinctness and freshness are preconditions of the lemmas that need them.
- **Timers** are handles (`nat`). Clearing a timer means forgetting its handle; a timer firing is a `Tick`/`Fire` with its handle.
- **Truthiness.** JavaScript truthiness of a nullable id is `Types.Present`: `null` and `""` are both falsy.
- **Time.** `createdAt` is an integer timestamp (the source stores an ISO string and compares `getTime()`).

The model follows the code in these places:

- The "Saving..." flag is lowered by its timer even after a failed write (`Persistence.FailedWriteStillClears`).
- The descendant closure is computed by an unguarded recursion (`Forest.SourceClosure`). The guarded closure `Forest.Closure` agrees with it whenever the recursion finishes. The recursion finishes on every workspace without parent cycles (`Forest.SourceClosureOnForest`), and never finishes on a cycle (`Forest.SourceClosureDivergesOnCycle`).
- Export reports failure only when the filtered list is empty.
- The search box's filter throws on a CODE or TODO payload whose field is truthy but not a string. `Notebook.SearchFilterAsWritten` models this. The rest of the model uses the corrected `Notebook.SearchFilter` (see Findings).
- Import validates only the first element.

## Model

| member | source | states |
|---|---|---|
| Types.BlockTypesExhaustive | types.ts:2-9 | there are exactly six block types, and their stored names are pairwise distinct |
| Types.CanvasTypesExhaustive | types.ts:17-20 | there are exactly two canvas types |
| Types.FindProject | App.tsx:129-132 | `projects.find`: the first project with the id; none exactly when no project has it |
| Types.FindCanvas | App.tsx:134-137 | `canvases.find`: the first canvas with the id; none exactly when no canvas has it |
| Constants.SeedIdsDistinct | constants.ts:4-129 | the seed's project ids are unique, its two canvas ids differ, and the guide's block ids are pairwise distinct |
| Constants.SeedCanvasesComplete | constants.ts:10-120 | every seed canvas carries its type, and the payload that type uses (blocks for a note, buffers for a playground) |
| Constants.SeedNesting | constants.ts:123-127 | `proj_2`'s parent is `proj_1`, which is present and has no parent |
| Constants.GuideOpening | constants.ts:16-21 | the guide starts with the heading "Welcome to Atelier!" |
| Constants.SupportedLanguagesFacts | constants.ts:131 | eleven distinct languages, including `javascript` (the decoder's default) and `python` (the seed's code block) |
| Seed.SeedIsNestedPair | constants.ts:4-129 | the seed is two projects, the second nested under the first by a non-empty, distinct id |
| Seed.PairTree | components/LibraryPane.tsx:171-187 | such a pair shows as one root holding the other, which has no children |
| Seed.SeedTree | constants.ts:123-127 | the library shows `proj_1` as the only root, with `proj_2` under it |
| Seed.PairClosure | App.tsx:176-184 | deleting the outer project of such a pair takes both |
| Seed.PairSourceClosure | App.tsx:176-184 | the source's own recursion, allowed two levels, finds both projects of such a pair |
| Seed.SeedDeleteReach | constants.ts:123-127 | deleting `proj_1` also deletes `proj_2` |
| Seed.SeedOpensGuide | App.tsx:139-154 | on a desktop the first render opens `proj_1` and its guide `canvas_1`; on a narrow screen no canvas is opened |
| Seed.SplitPair | components/NotebookPane.tsx:117-118 | a pinned and an unpinned canvas, in either order, split into one section each |
| Seed.SeedNotebook | constants.ts:10-16 | with an empty search the pinned guide forms the pinned section and the playground the other, whatever their creation times |
| Seed.SeedPlaygroundPreview | constants.ts:109-120 | the seed playground previews as the playground label |
| Forest.Saturate | App.tsx:176-183 | the set grown by parent links contains the start, stays within the start plus the workspace's ids, and is closed under the child relation |
| Forest.SaturateLeast | App.tsx:176-183 | growing never leaves a closed set that holds the start |
| Forest.Closure | App.tsx:175-184 | the descendant closure holds the target, is closed under "parent is a member", and holds no id beyond the workspace's and the target |
| Forest.ClosureLeast | App.tsx:176-183 | the closure is the least such set: it lies inside every closed set holding the target |
| Forest.SourceClosureWithin | App.tsx:176-183 | whatever the unguarded recursion collects lies inside every closed set holding its start |
| Forest.SourceClosureClosed | App.tsx:176-183 | whatever the unguarded recursion collects holds its start and is closed |
| Forest.SourceClosureAgrees | App.tsx:176-184 | when the unguarded recursion finishes, it computes exactly the guarded closure |
| Forest.SourceClosureFinishes | App.tsx:176-184 | when every project ranks strictly below the parent it names (no parent cycle), the unguarded recursion finishes once it may go deeper than the start's rank |
| Forest.VisitChildrenFinishes | App.tsx:178-182 | under the same ranking, the `forEach` over the projects finishes from any index when the depth allowed reaches the start's rank |
| Forest.SourceClosureOnForest | App.tsx:176-184 | on a workspace without parent cycles, the source's recursion returns exactly the guarded closure, so delete and export act as the source does |
| Forest.SourceClosureDivergesOnCycle | App.tsx:176-183 | on two projects that are each other's parent, the recursion as written never finishes, for any depth |
| Forest.ClosureOfCycle | App.tsx:176-183 | the guarded closure of that cycle is both projects |
| Forest.CycleClosure | App.tsx:176-184 | for any two projects naming each other as parent, the closure of either is both |
| Forest.ClosureFollowsLinks | App.tsx:178-180 | the closure depends only on each project's id and parent link |
| Forest.FirstRoot | App.tsx:190 | `find(p => p.parentId === null)`: the first project without a parent link; none when every project has one |
| Forest.FallbackProject | App.tsx:190 | the first root if there is one, else the first project, else none exactly when no project remains |
| Forest.Survivors | App.tsx:186 | the survivors are the workspace read at increasing positions that include every project outside the closure, so they keep workspace order; each is outside the closure, and no survivor's parent link names a deleted project |
| Forest.SurvivorsExactlyOutside | App.tsx:186 | a project of the workspace survives exactly when it is outside the closure |
| Forest.SurvivorsNoDangling | App.tsx:184-186 | no survivor's parent link names a project that was removed |
| Forest.OutsideInOrder | App.tsx:186 | the projects outside a set of ids are kept, every one of them, in workspace order |
| Forest.InsideInOrder | App.tsx:198-206 | the projects inside a set of ids are taken, every one of them, in workspace order |
| Forest.DeleteProject | App.tsx:174-193 | the survivors are stored; the selection is kept unless the active project was deleted; otherwise the fallback project and its first canvas (or none) are selected |
| Forest.DeleteRemovesExactlyClosure | App.tsx:174-187 | a project survives exactly when it is outside the closure; no survivor points at a removed project |
| Forest.ClosureOfLeaf | App.tsx:176-184 | a project nobody names as parent is its own whole closure |
| Forest.DeleteLeaf | App.tsx:184-186 | with unique ids, deleting such a project removes that project alone and keeps the order of the others |
| Forest.ExportProject | App.tsx:196-222 | export is the workspace read at increasing positions that include every project of the closure, so it keeps workspace order and copies projects verbatim; it fails exactly when no project lies in the closure, so never when the id exists |
| Forest.ExportDeletePartition | App.tsx:186-206 | export and delete of the same id split the workspace: together they hold every project exactly once |
| Forest.AddProject | App.tsx:157-166 | the new project (fresh id, "New Project", no canvases, the given parent) is appended and selected with no canvas; the old projects are untouched |
| Forest.AddThenDelete | App.tsx:157-186 | deleting a freshly added project gives the workspace back |
| Forest.RenameProject | App.tsx:170-172 | every project with the id takes the new name; ids, links, canvases and the other names are unchanged |
| Forest.RenameKeepsClosures | App.tsx:170-184 | renaming never changes any descendant closure |
| Import.OffsetLocatesProject | App.tsx:61-65 | pass 1 generates project `j`'s new id at its position in the walk order |
| Import.RenumberBlocks | App.tsx:73-78 | block `k` of a canvas takes the k-th id after the canvas's, and nothing else changes |
| Import.RenumberCanvasHeadIds | App.tsx:67-78 | a canvas's own new id and its blocks' are the next ids the oracle gives, in order |
| Import.RenumberCanvasesIds | App.tsx:67-79 | pass 1 gives the canvases and blocks of a project the oracle's ids in visiting order |
| Import.RenumberProjectsTail | App.tsx:61-80 | the rest of the walk is the walk of the remaining projects, started after the first project's ids |
| Import.RenumberHeadIds | App.tsx:61-79 | the first project's id and its canvases' and blocks' ids come first in the walk |
| Import.RenumberTailIds | App.tsx:61-80 | the remaining projects' ids follow the first project's |
| Import.RenumberProjectsIds | App.tsx:61-80 | every id of the batch after pass 1 is the oracle's, in visiting order |
| Import.RenumberCanvasKeepsContent | App.tsx:67-78 | pass 1 changes nothing about a canvas but its id and its blocks' ids |
| Import.RenumberCanvasesKeepsContent | App.tsx:67-79 | the same for every canvas of a project |
| Import.RenumberProjectsKeepsContent | App.tsx:58-80 | pass 1 keeps each project's name, canvases, blocks, order and parent link, changing only ids |
| Import.FillMapKeys | App.tsx:56-76 | the shared map has an entry for exactly the visited old ids |
| Import.FillMapOutside | App.tsx:64-76 | an old id the walk never visits keeps its entry |
| Import.FillMapLastWins | App.tsx:64-76 | the last visit of an old id decides its entry, whatever kind of entity made it |
| Import.IdMap | App.tsx:56-80 | the map after pass 1 maps exactly the batch's old ids |
| Import.Relink | App.tsx:83-89 | pass 2 keeps a link exactly when it is truthy and its target has a truthy mapped id, and then uses the mapped id |
| Import.RegenerateIds | App.tsx:55-93 | the batch keeps its length, and its ids are the oracle's in visiting order |
| Import.RegenerateIdsAt | App.tsx:55-93 | project `k` keeps everything but ids, takes the id generated at its walk position, and its parent link is looked up in the shared map |
| Import.ParentFollowsRenaming | App.tsx:82-90 | when the batch's old ids are pairwise distinct, a project whose parent is project `j` ends up pointing at `j`'s new id |
| Import.IdMapAtProject | App.tsx:61-65 | with distinct old ids, the map sends a project's old id to its new id |
| Import.ParentOutsideBatchBecomesRoot | App.tsx:86-89 | a parent link naming nothing in the batch becomes "no parent" |
| Import.SharedMapReattachesToCanvas | App.tsx:56-85 | with one map for every kind of id, a canvas reusing a project's old id captures the project's children |
| Import.ImportDocument | App.tsx:225-245 | unparsable, non-array, empty and keyless-first documents fail with their own errors; primitives make regeneration throw; a fully well-formed batch is regenerated and appended after the untouched projects |
| Import.OnlyFirstElementValidated | App.tsx:232-238 | a later element lacking the keys is not reported as a format error |
| Import.ImportIdsAreFresh | App.tsx:238-239 | with a fresh oracle, the appended batch's ids are pairwise distinct and none was in the workspace |
| Migration.MigrateCanvas | App.tsx:118-123 | a missing type becomes NOTE, a missing block list `[]`, missing buffers three empty strings; present fields are kept |
| Migration.MigrateProject | App.tsx:116-124 | every canvas of the project is migrated, and nothing else about the project changes |
| Migration.Migrate | App.tsx:111-127 | the workspace is unchanged unless some canvas lacks a type; then every canvas of every project is migrated |
| Migration.MigratedNeedsNothing | App.tsx:112-125 | after the migration the guard is false |
| Migration.MigrateIdempotent | App.tsx:111-127 | migrating twice is migrating once |
| Migration.MigrateCompletes | App.tsx:115-125 | when the guard fires, every canvas comes out with its type, blocks and buffers |
| Migration.TypedWorkspaceUntouched | App.tsx:112-113 | the guard looks only at the type: a typed canvas without blocks keeps none |
| Migration.CurrentWorkspaceNotMigrated | App.tsx:112 | a workspace of the current shape is never migrated |
| Migration.Store | types.ts:28-36 | the stored form of a current canvas carries its type |
| Migration.Load | types.ts:28-36 | loading a typed stored canvas is the inverse of storing |
| Migration.LoadStore | types.ts:28-36 | loading a stored canvas gives the canvas back |
| Edits.NewCanvas | App.tsx:253-269 | a new note has the default title and one heading block and no buffers; a new playground has the starter buffers and no block list |
| Edits.NewBlock | App.tsx:340-344 | a new block is empty, except a CODE block, which holds the starter payload |
| Edits.ReplaceBlock | App.tsx:325 | blocks with the id are replaced in place, the others kept |
| Edits.ReplaceBlockIdempotent | App.tsx:313-335 | updating the same block twice is updating it once |
| Edits.RemoveBlockKeepsOthers | App.tsx:369 | deleting by id keeps exactly the blocks with another id |
| Edits.AppendThenRemove | App.tsx:352-369 | deleting a block just appended under a new id gives the list back |
| Edits.Toggled | App.tsx:304 | the pin state is negated (an absent flag counts as unpinned); nothing else changes |
| Edits.InPlaceEditsTouchOnlyNamed | App.tsx:296-418 | in-place edits keep the list's length, order and ids, and change only canvases with the named id |
| Edits.TogglePinFlips | App.tsx:296-311 | toggling flips exactly the named canvases' pin state |
| Edits.TogglePinTwice | App.tsx:302-306 | toggling twice restores every pin state; an absent flag becomes an explicit `false` |
| Edits.SetPlaygroundOnlyOnPlaygrounds | App.tsx:410-418 | buffers change only on playground canvases with the named id |
| Edits.BlockEditsNeedBlocks | App.tsx:313-376 | block edits reach only the named canvases that have a block list, and do exactly the block-list edit there |
| Edits.ReorderMovesOneBlock | App.tsx:378-398 | the block at `start` lands at `end`; the others keep their relative order; the list is a permutation; `start == end` changes nothing; every canvas with the id gets the list, no other canvas changes |
| Edits.ReorderWithoutBlocksIsNoOp | App.tsx:382-383 | no canvas with the id, or no block list, leaves the canvases unchanged |
| Edits.ApplyToActive | App.tsx:296-311 | with no active project nothing changes; otherwise only the canvases of projects with the active id change, by the edit |
| Edits.AddCanvasHandler | App.tsx:248-279 | the new canvas goes first in the active project and is selected; with no active project nothing happens |
| Edits.DeleteCanvasHandler | App.tsx:281-294 | the canvas is dropped from the active project; a deleted selection moves to the first remaining canvas of the first project with the active id, or to none when no canvas remains or no project has the id |
| Edits.AddThenDeleteCanvas | App.tsx:248-294 | deleting the canvas just added under a new id gives the workspace back |
| Edits.UpdateTitleLastWins | App.tsx:400-408 | of two title updates, the last one wins |
| Edits.AddThenDeleteBlock | App.tsx:337-376 | deleting the block just added under a new id gives the workspace back |
| Seqs.Kept | App.tsx:186 | `filter` keeps order: the filtered list is the input read at strictly increasing positions, and every position whose element passes is among them |
| Seqs.RemoveAt | App.tsx:386 | `splice(i, 1)`: the element at `i` is removed, the others shift down |
| Seqs.InsertAt | App.tsx:387 | `splice(i, 0, x)`: `x` is at `i`, the others shift up |
| Seqs.RemoveInserted | App.tsx:386-387 | removing what was just inserted gives the list back |
| Seqs.Move | App.tsx:385-387 | the moved element is at `to`, the rest keep their order, the result is a permutation, and moving onto itself is the identity |
| Seqs.MoveBack | App.tsx:385-387 | moving back from `to` to `from` undoes a move |
| Workspace.InitialSelection | App.tsx:98-99 | the first project is active (none when the workspace is empty) and no canvas is |
| Workspace.SelectionEffect | App.tsx:139-154 | one run of the effect: a missing project selects the first; a selected canvas always belongs to the active project; one that exists is kept; a changed canvas selection is the project's first canvas, or none when it has none |
| Workspace.SettlesWhenProjectFound | App.tsx:139-154 | once the active project exists, one more run of the effect changes nothing |
| Workspace.EffectSettles | App.tsx:139-154 | from any selection, three runs reach a selection the effect leaves alone |
| Workspace.SettledIsConsistent | App.tsx:139-154 | a settled selection names an existing project and one of its canvases, and on a desktop always a canvas when the project has one |
| Workspace.SelectProject | App.tsx:421-427 | the project becomes active and no canvas is selected |
| Workspace.SelectProjectOpensFirstCanvas | App.tsx:139-154 | on a desktop, selecting a project with canvases settles on its first canvas |
| Workspace.SelectCanvas | App.tsx:429-431 | the canvas becomes selected; the project is kept |
| Library.LastWithId | components/LibraryPane.tsx:172 | an id resolves to a project with that id |
| Library.LastWithIdSpec | components/LibraryPane.tsx:172 | the map keeps the last project with each id, and finds nothing only when no project has the id |
| Library.NodeOf | components/LibraryPane.tsx:172-176 | each project is represented by the last project sharing its id |
| Library.ParentNode | components/LibraryPane.tsx:179-181 | a project hangs under the node its truthy parent link resolves to |
| Library.RootIffUnlinked | components/LibraryPane.tsx:179-184 | a project is a root exactly when its parent link is falsy or names no project |
| Library.BuildTree | components/LibraryPane.tsx:171-187 | the builder's roots and child lists equal the reference lists, with one child list per node |
| Library.Place | components/LibraryPane.tsx:175-185 | one step of the builder keeps it equal to the reference lists |
| Library.PushStep | components/LibraryPane.tsx:179-181 | a linked project is appended to its parent node's list; no other list changes |
| Library.SkipStep | components/LibraryPane.tsx:182-184 | an unlinked project is appended to the roots; no child list changes |
| Library.NodeOfUnique | components/LibraryPane.tsx:172 | with unique ids every project is its own node |
| Library.PlacedMembers | components/LibraryPane.tsx:175-185 | a project is listed under a parent exactly when it hangs there |
| Library.PlacedInOrder | components/LibraryPane.tsx:175-185 | with unique ids, the roots and each child list keep the order of the flat list |
| Library.PlacedCount | components/LibraryPane.tsx:172-185 | with unique ids each project appears exactly once in the list of its own parent node and in no other |
| Library.ParentNodeIsLink | components/LibraryPane.tsx:179-181 | with unique ids the tree's parent relation is the forest's link relation |
| Library.SelfParentNotRoot | components/LibraryPane.tsx:179-184 | a project naming itself as parent is pushed onto its own child list and is not a root |
| Library.FinishRename | components/LibraryPane.tsx:56-63 | a non-blank draft submits exactly `Text.Trim(draft)`, which is non-empty and already trimmed; a blank one reverts to the current name |
| Library.SaveStatusText | components/LibraryPane.tsx:189 | the caption is "Saving..." exactly while saving, else "Saved" |
| Text.Lower | components/NotebookPane.tsx:92 | lower-casing keeps the length and maps each letter A-Z to its lower case |
| Text.Trim | components/LibraryPane.tsx:57-58 | the trimmed string is a slice of the input with only white space cut on either side, and starts and ends with a non-space |
| Text.LowerTodo | components/NotebookPane.tsx:76 | the TODO type name lower-cases to `todo` |
| Text.TrimEmptyIffBlank | components/LibraryPane.tsx:57 | trimming yields the empty string exactly when the input is blank |
| Text.TrimIdempotent | components/LibraryPane.tsx:58 | trimming twice is trimming once |
| Json.Get | components/blocks/CodeBlock.tsx:25-28 | reading a property throws exactly on `null`, yields the value when the object has the key, and is `undefined` otherwise |
| Notebook.SortNewestFirst | components/NotebookPane.tsx:87-89 | the sorted list never increases in creation time and is a permutation of the canvases |
| Notebook.Insert | components/NotebookPane.tsx:88 | one insertion step keeps the list sorted and adds exactly the inserted canvas |
| Notebook.InsertKeepsTies | components/NotebookPane.tsx:88 | an inserted canvas goes after its ties |
| Notebook.SortIsStable | components/NotebookPane.tsx:87-89 | canvases created at the same time keep their relative order |
| Notebook.SortedRunsDetermine | components/NotebookPane.tsx:87-89 | a sorted order plus the order within each run of ties fix a list completely |
| Notebook.SortSorted | components/NotebookPane.tsx:87-89 | sorting a list already newest first changes nothing, so sorting is idempotent |
| Notebook.PayloadKey | components/NotebookPane.tsx:101-106 | only CODE and TODO blocks are searched through a payload field |
| Notebook.SearchTextAsWritten | components/NotebookPane.tsx:99-111 | other blocks and unparsable payloads are searched raw |
| Notebook.SearchText | components/NotebookPane.tsx:99-110 | the decoded `code`/`text` string is searched when there is one, the raw content when the payload is malformed |
| Notebook.NumericCodeEscapes | components/NotebookPane.tsx:101-111 | a CODE block whose `code` is a number makes the search as written throw |
| Notebook.SearchFilter | components/NotebookPane.tsx:91-115 | the corrected filter: an empty term returns the sorted list unchanged; the result is never longer; with a non-empty term it keeps the matching canvases in sorted order (`Notebook.SearchInOrder`) |
| Notebook.SearchInOrder | components/NotebookPane.tsx:96-114 | a non-empty search lists the sorted canvases at increasing positions, including every matching one, so the matches keep their sorted order |
| Notebook.SomeBlockAsWritten | components/NotebookPane.tsx:98-112 | `blocks.some` as written: a hit means some block matches, no hit means none does, and a throw means some block's text escapes the `try` |
| Notebook.CanvasHitAsWritten | components/NotebookPane.tsx:96-113 | when one canvas's test returns, it agrees with the corrected test; it throws only when some block escapes, even if the title matched |
| Notebook.FilterAsWritten | components/NotebookPane.tsx:96-114 | when the filter returns, it equals the corrected filter; it throws exactly when testing some canvas throws |
| Notebook.SearchFilterAsWritten | components/NotebookPane.tsx:91-115 | an empty term lists everything; a returned list is the corrected filter's; a throw needs a non-empty term and an escaping block |
| Notebook.SearchAgreesWithoutEscapes | components/NotebookPane.tsx:91-115 | when no block's text escapes, the filter as written returns the corrected list |
| Notebook.NumericCodeBreaksSearch | components/NotebookPane.tsx:101-111 | a note whose one CODE block stores `code: 1` makes the filter as written throw for any non-empty term, while the corrected filter lists or drops it |
| Notebook.SearchMembers | components/NotebookPane.tsx:91-115 | a canvas is listed exactly when it is in the sorted list and the term is empty or it matches on its title or a block |
| Notebook.NarrowingSearch | components/NotebookPane.tsx:92-113 | a term containing another lists a subset of that term's list |
| Notebook.Split | components/NotebookPane.tsx:117-118 | the pinned section holds only pinned canvases, the other only unpinned ones, and together they are the list |
| Notebook.SplitAround | components/NotebookPane.tsx:117-118 | each canvas lands in its pin flag's section, and both sections keep the list's order |
| Notebook.FirstProse | components/NotebookPane.tsx:66 | the first TEXT or HEADING block; none when there is none |
| Notebook.BlockLabel | components/NotebookPane.tsx:76-78 | the label is "[", the lower-cased type name, then " block]" |
| Notebook.TodoLabel | components/NotebookPane.tsx:75-76 | a TODO block's fallback label is "[todo block]" |
| Notebook.Prefix | components/NotebookPane.tsx:69 | `substring(0, n)`: the first `n` characters, or all when shorter |
| Notebook.PreviewText | components/NotebookPane.tsx:59-81 | the playground label; "No content" with no blocks; "H: " plus the first prose heading, or the first 100 characters of the first prose text; otherwise, for a leading TODO, its non-empty string text when the payload parses, else the TODO label; for any other leading block, its type label |
| Notebook.FirstProseAppend | components/NotebookPane.tsx:66 | blocks added after the first prose block do not change which block is found |
| Notebook.PreviewStableUnderAppend | components/NotebookPane.tsx:66-70 | once a note has a prose block, appending blocks never changes its preview |
| Notebook.HeadingFirst | components/NotebookPane.tsx:66-68 | a note whose first block is a heading previews as "H: " plus that heading |
| CanvasPane.ViewOf | components/CanvasPane.tsx:131-157 | a playground opens the playground editor; a note lists its blocks in order, none when it has no list |
| CanvasPane.Start | components/CanvasPane.tsx:108-111 | drag start records the dragged index |
| CanvasPane.Enter | components/CanvasPane.tsx:113-116 | entering a block overwrites the target with its index |
| CanvasPane.End | components/CanvasPane.tsx:122-129 | a reorder is requested exactly when both indices are set and differ; both are then cleared |
| CanvasPane.EnterAll | components/CanvasPane.tsx:113-116 | after a path of entries the target is the last block entered |
| CanvasPane.DropThenDragEnd | components/CanvasPane.tsx:122-129 | the drop and the drag end both end the gesture, and only the first can request a reorder |
| CanvasPane.Gesture | components/CanvasPane.tsx:108-129 | a whole gesture requests moving the dragged block to the last block entered, unless that is the dragged block itself |
| CanvasPane.ForeignDropIgnored | components/CanvasPane.tsx:122-129 | a drop with no drag started in the pane requests nothing |
| CanvasPane.GestureInRange | components/CanvasPane.tsx:157-164 | rendered indices are in range, so the requested reorder moves exactly the dragged block |
| Playground.SetField | components/PlaygroundPane.tsx:180-182 | an edit replaces the named buffer |
| Playground.SetFieldOnly | components/PlaygroundPane.tsx:180-182 | editing one buffer leaves the other two unchanged |
| Playground.Mount | components/PlaygroundPane.tsx:91-108 | the draft starts from the stored buffers (three empty ones when absent) and a commit timer is armed |
| Playground.Edit | components/PlaygroundPane.tsx:103-108 | an edit updates the draft and arms a fresh timer in place of the pending one |
| Playground.Fire | components/PlaygroundPane.tsx:104-106 | only the live timer commits, and it commits the current draft |
| Playground.Unmount | components/PlaygroundPane.tsx:107 | leaving clears the pending timer |
| Playground.QuickEditsCommitOnce | components/PlaygroundPane.tsx:103-108 | of two quick edits only the second timer commits, and it commits both edits |
| Playground.FireOnce | components/PlaygroundPane.tsx:104-107 | a commit is delivered at most once |
| Playground.UnmountDropsPendingEdit | components/PlaygroundPane.tsx:103-108 | leaving within the quiet window loses the last edit |
| Playground.Receive | components/PlaygroundPane.tsx:143-146 | the console keeps its old lines and appends only accepted console messages |
| Playground.ReceiveConcat | components/PlaygroundPane.tsx:142-147 | receiving in two batches is receiving them together |
| Playground.ForeignMessagesIgnored | components/PlaygroundPane.tsx:144 | messages from elsewhere never reach the console |
| Playground.ReceiveIsFilter | components/PlaygroundPane.tsx:143-146 | the console is its old lines plus the accepted messages in arrival order; after clearing, exactly the accepted messages since |
| Playground.ReceiveStep | components/PlaygroundPane.tsx:143-146 | one more message is appended exactly when the console accepts it |
| CodeBlock.LanguageOf | components/blocks/CodeBlock.tsx:27 | a supported stored language is kept; anything else becomes `javascript` |
| CodeBlock.CodeOf | components/blocks/CodeBlock.tsx:28 | a truthy stored code is kept; a missing or falsy one becomes the empty string |
| CodeBlock.Decode | components/blocks/CodeBlock.tsx:23-34 | the decoded language is always supported; unparsable or `null` payloads are legacy code in `javascript` |
| CodeBlock.Encode | components/blocks/CodeBlock.tsx:37 | the encoded record has exactly the keys `language` and `code` |
| CodeBlock.DecodeNormal | components/blocks/CodeBlock.tsx:23-34 | every decoded payload has a supported language and a truthy code or the empty string |
| CodeBlock.DecodeEncode | components/blocks/CodeBlock.tsx:25-37 | such a payload survives an encode/decode round trip |
| CodeBlock.Rewrite | components/blocks/CodeBlock.tsx:36-38 | an update keeps the block's id and type and stores the encoded record |
| CodeBlock.ChangeLanguage | components/blocks/CodeBlock.tsx:40-42 | a language change keeps the block's id and type |
| CodeBlock.ChangeCode | components/blocks/CodeBlock.tsx:44-46 | a code change keeps the block's id and type |
| CodeBlock.ChangeLanguageKeepsCode | components/blocks/CodeBlock.tsx:36-42 | picking a language keeps the code; the picked language reads back when supported, else `javascript` |
| CodeBlock.ChangeCodeKeepsLanguage | components/blocks/CodeBlock.tsx:36-46 | editing the code keeps the language and reads back exactly the typed code |
| CodeBlock.LegacyUpgrade | components/blocks/CodeBlock.tsx:30-42 | the first edit of a legacy block stores its old text as the code |
| TodoBlock.Decode | components/blocks/TodoBlock.tsx:10-20 | an unparsable or `null` payload is a blank item; `checked` is true only for a boolean true; `text` only for a string |
| TodoBlock.Encode | components/blocks/TodoBlock.tsx:23-24 | the encoded record has exactly the keys `checked` and `text` |
| TodoBlock.DecodeEncode | components/blocks/TodoBlock.tsx:12-24 | every item survives an encode/decode round trip |
| TodoBlock.ChangeText | components/blocks/TodoBlock.tsx:22-25 | a text edit keeps the block's id and type and the decoded check mark |
| TodoBlock.ChangeChecked | components/blocks/TodoBlock.tsx:27-30 | a check change keeps the block's id and type and the decoded text |
| TodoBlock.ChangeTextKeepsChecked | components/blocks/TodoBlock.tsx:22-25 | the block reads back the typed text with its check mark |
| TodoBlock.ChangeCheckedKeepsText | components/blocks/TodoBlock.tsx:27-30 | ticking keeps the text; ticking back restores the original item |
| Persistence.LoadInitial | hooks/useLocalStorage.ts:5-13 | the parsed stored item, or the initial value when the item is absent, empty or unparsable |
| Persistence.Persist | hooks/useLocalStorage.ts:18-41 | each change raises the flag, writes the whole value when the write succeeds, and arms a fresh timer in place of the old one |
| Persistence.Mount | hooks/useLocalStorage.ts:4-41 | mounting loads the value and runs the write effect once |
| Persistence.Tick | hooks/useLocalStorage.ts:39-41 | only the live timer lowers the flag; value and storage are untouched |
| Persistence.Unmount | hooks/useLocalStorage.ts:44-48 | unmounting clears the live timer and nothing else |
| Persistence.StaleTimerKeepsSaving | hooks/useLocalStorage.ts:21-41 | after two quick changes the first timer does nothing, and the second lowers the flag |
| Persistence.FailedWriteStillClears | hooks/useLocalStorage.ts:28-41 | after a failed write the timer still lowers the flag, and storage keeps the previous value |
| Persistence.ReloadReadsBack | hooks/useLocalStorage.ts:8-33 | a value written successfully is what the next visit loads |
| Persistence.PersistAll | hooks/useLocalStorage.ts:18-41 | after a run of changes the value is the last one and the flag is up |
| Persistence.PersistAllDisk | hooks/useLocalStorage.ts:28-36 | storage holds the last value whose write succeeded |
| Persistence.ReloadAfterChanges | hooks/useLocalStorage.ts:5-36 | a reload after a run of changes reads back the last value whose write succeeded |

## Left out

- Rendering and layout: JSX, CSS classes, focus mode, the header and menus, the responsive branches beyond the `isDesktop` flag of the selection effect, and the pane-width drag in the playground (floating-point percentages).
- Browser I/O: `localStorage` becomes the `Store.disk` field. FileReader, Blob, download links, `alert`, `console`, the clipboard and the preview iframe are left out; only the iframe's message filter is kept.
- The JSON grammar. `JSON.parse`/`JSON.stringify` are parameters, so facts about the seed's encoded TODO and CODE payloads (a boolean `checked`, a string `text`, the language `python`) are not stated about the payload strings themselves.
- Clocks and randomness: `Date.now()`, `Math.random()` and `new Date().toISOString()` become parameters.
- The theme, media-query and speech-recognition hooks, the service worker, and the IMAGE, PDF, HEADING and TEXT block editors, which only replace `content`.
- Text.Lower: maps only A-Z; JavaScript's full Unicode lower-casing is left out.
- Text.Trim: removes the common white-space characters (ASCII space, tab, line breaks, vertical tab, form feed, no-break space, BOM, line and paragraph separators), not every Unicode space separator.
- Notebook.Prefix: counts characters, where `substring` counts UTF-16 code units.
- Notebook.SortNewestFirst: `createdAt` is an integer; an invalid date (whose `getTime()` is `NaN`) is not modelled.
- Notebook.SearchFilter: this is the corrected filter. On a CODE or TODO payload whose field is truthy but not a string, the source's filter throws instead of returning a list. `Notebook.SearchFilterAsWritten` models that behaviour and agrees with `SearchFilter` everywhere else.
- Notebook.SearchMembers: is stated over the corrected filter, for the same reason.
- Notebook.PreviewText: a TODO whose `text` is truthy but not a string previews as the type label here, where the source shows that value.
- Edits.ApplyToActive: requires a reorder's indices to be in range for the block list it moves. An out-of-range index would splice in `undefined`; the only caller passes rendered indices (`CanvasPane.GestureInRange`).
- Edits.ReorderMovesOneBlock: has the same in-range requirement.
- Import.ImportDocument: an element that is an object but not a project yields `OutsideModel`. Depending on its fields, regeneration either throws or appends the object as it is, and the model represents neither.
- Persistence.Persist: the `typeof storedValue === 'function'` branch is left out; workspace values are never functions.
- Persistence.Persist: the effect's re-arming when the storage key changes is left out; the key is constant.
- The debounce effect also re-runs when the canvas id or the commit callback changes identity. Only edits are modelled as re-arming it.

## Findings

| source | as written | input that shows it | evidently intended | confidence | as-written member | corrected member |
|---|---|---|---|---|---|---|
| App.tsx:176-183 | `findChildren` recurses into every child with no visited set | two projects whose `parentId`s name each other, then deleting either (export, lines 198-203, is the same) | the descendant closure, computed by a traversal that terminates on any workspace | not executed | Forest.SourceClosureDivergesOnCycle | Forest.ClosureOfCycle |
| components/NotebookPane.tsx:101-111 | `JSON.parse(...).code \|\| ''` is lower-cased outside the `try` | a CODE block whose payload is `{"code": 1}`, with a non-empty search term | fall back to the raw content as for malformed JSON | not executed | Notebook.NumericCodeBreaksSearch | Notebook.SearchText |
