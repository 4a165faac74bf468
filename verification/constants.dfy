/**
 * The seed workspace a first visit starts from, and the list of languages a
 * code block may be tagged with.
 */
module Constants {
  import opened Wrappers
  import opened Types

  /** The languages offered by a code block's language picker. */
  const SupportedLanguages: seq<string> :=
    ["javascript", "python", "html", "css", "ruby", "json", "typescript", "csharp", "jsx", "tsx", "markdown"]

  /** The blocks of the seed note, the getting-started guide. */
  const GuideBlocks: seq<Block> := [
    Block("block_1", Heading, "Welcome to Atelier!"),
    Block("block_2", BlockType.Text, "Atelier is your personal digital workshop, designed for focused work and creativity. This guide will walk you through its powerful features. Your work is saved automatically to your browser."),
    Block("block_3", Heading, "Core Features Checklist"),
    Block("block_4_1", Todo, "{\"checked\":true,\"text\":\"**Hierarchical Projects:** Organize your work with nested folders.\"}"),
    Block("block_4_2", Todo, "{\"checked\":true,\"text\":\"**Rich Notes:** Write using full Markdown support.\"}"),
    Block("block_4_3", Todo, "{\"checked\":true,\"text\":\"**Code Playgrounds:** Experiment with live HTML, CSS, and JS.\"}"),
    Block("block_4_4", Todo, "{\"checked\":true,\"text\":\"**Drag & Drop:** Reorder blocks within any note.\"}"),
    Block("block_4_5", Todo, "{\"checked\":true,\"text\":\"**Focus Mode & Themes:** Customize your workspace.\"}"),
    Block("block_4_6", Todo, "{\"checked\":true,\"text\":\"**Import & Export:** Backup and share your projects.\"}"),
    Block("block_5", Heading, "Markdown in Action"),
    Block("block_6", BlockType.Text, "You can use Markdown to format your text. For example:\n\n- Create lists of items.\n- Use **bold** and *italic* text for emphasis.\n- Add `inline code` for small snippets.\n\n> And even create blockquotes to highlight important information!"),
    Block("block_7", Heading, "Code Blocks & Playgrounds"),
    Block("block_7_1", BlockType.Text, "**Code Blocks** (like the one below) are for displaying static code snippets. You can select the language and use the **copy button**.\nFor live, runnable code, create a **New Playground** from the notebook menu."),
    Block("block_8", Code, "{\"language\":\"python\",\"code\":\"# This is a Python code block\\ndef fibonacci(n):\\n    a, b = 0, 1\\n    while a < n:\\n        print(a, end=' ')\\n        a, b = b, a+b\\n\\nfibonacci(1000)\"}"),
    Block("block_9", Heading, "Organization Tools"),
    Block("block_10", BlockType.Text, "Use the **pin icon** on a note to keep it at the top of its project. Use the **search bar** to find notes instantly by title or content. **Double-click a project** in the library panel to rename it."),
    Block("block_11", Heading, "Backups and Sharing"),
    Block("block_12", BlockType.Text, "Hover over a project in the library and use the **`...` menu** to **Export** it as a JSON file. You can then **Import** it back on any device using the **upload button** at the bottom of the library panel. This is great for backups or sharing your work!")
  ]

  /** The three buffers of the seed playground. */
  const SeedPlayground := PlaygroundContent(
    "<h1>Hello, Playground!</h1>\\n<p>Edit the HTML, CSS, and JS panels to see the live preview update.</p>\\n<div id=\"root\"></div>",
    "body { font-family: sans-serif; color: #333; }\\nh1 { color: #007aff; }\\n#root { border: 1px solid #ccc; padding: 1rem; margin-top: 1rem; }",
    "const root = document.getElementById(\"root\");\\nconsole.log(\"Logging to the custom console!\");\\nconsole.warn(\"This is a warning.\");\\nconsole.error(\"This is an error.\");\\nroot.textContent = \"Hello from JavaScript!\";")

  /**
   * The seed workspace. Both canvases are stamped with the clock when the
   * module loads; the two readings are separate parameters.
   */
  function InitialData(guideCreated: int, playgroundCreated: int): seq<Project> {
    [ Project("proj_1", "Welcome to Atelier", [
        Canvas("canvas_1", "Getting Started Guide", Note, guideCreated, Some(true), Some(GuideBlocks), None),
        Canvas("canvas_playground_1", "My First Playground", Playground, playgroundCreated, Some(false), None, Some(SeedPlayground))
      ], None),
      Project("proj_2", "Web Development Snippets", [], Some("proj_1")) ]
  }

  /** The ids of the guide's blocks, in order. */
  const GuideIds: seq<Id> := ["block_1", "block_2", "block_3", "block_4_1", "block_4_2", "block_4_3", "block_4_4",
    "block_4_5", "block_4_6", "block_5", "block_6", "block_7", "block_7_1", "block_8", "block_9",
    "block_10", "block_11", "block_12"]

  lemma GuideIdsDistinct()
    ensures forall i, j :: 0 <= i < j < |GuideIds| ==> GuideIds[i] != GuideIds[j]
  {
  }

  lemma GuideBlockIds()
    ensures |GuideBlocks| == |GuideIds|
    ensures forall k :: 0 <= k < |GuideBlocks| ==> GuideBlocks[k].id == GuideIds[k]
  {
  }

  /** The guide opens with its title as a heading. */
  lemma GuideOpening()
    ensures |GuideBlocks| > 0 && GuideBlocks[0] == Block("block_1", Heading, "Welcome to Atelier!")
  {
  }

  /** The seed's ids: projects, canvases and the guide's blocks are each pairwise distinct. */
  lemma SeedIdsDistinct(t1: int, t2: int)
    ensures UniqueIds(InitialData(t1, t2))
    ensures forall i, j :: 0 <= i < j < |InitialData(t1, t2)[0].canvases| ==>
      InitialData(t1, t2)[0].canvases[i].id != InitialData(t1, t2)[0].canvases[j].id
    ensures forall i, j :: 0 <= i < j < |GuideBlocks| ==> GuideBlocks[i].id != GuideBlocks[j].id
  {
    GuideIdsDistinct();
    GuideBlockIds();
  }

  /** Every canvas of the seed has its type and the payload its type uses. */
  lemma SeedCanvasesComplete(t1: int, t2: int)
    ensures forall i, j :: 0 <= i < |InitialData(t1, t2)| && 0 <= j < |InitialData(t1, t2)[i].canvases| ==>
      var c := InitialData(t1, t2)[i].canvases[j];
      (c.kind == Note ==> c.blocks.Some?) && (c.kind == Playground ==> c.playgroundContent.Some?)
  {
  }

  /** The seed nests its second project under the first, by a link that resolves. */
  lemma SeedNesting(t1: int, t2: int)
    ensures InitialData(t1, t2)[1].parentId == Some(InitialData(t1, t2)[0].id)
    ensures InitialData(t1, t2)[0].parentId.None?
  {
  }

  /** The picker's languages are pairwise distinct and include the decoder's default. */
  lemma SupportedLanguagesFacts()
    ensures |SupportedLanguages| == 11
    ensures "javascript" in SupportedLanguages && "python" in SupportedLanguages
    ensures forall i, j :: 0 <= i < j < |SupportedLanguages| ==> SupportedLanguages[i] != SupportedLanguages[j]
  {
  }
}
