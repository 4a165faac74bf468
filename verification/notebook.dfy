/**
 * The notebook pane: the canvases of the active project sorted newest
 * first, narrowed by the search box, split into pinned and unpinned
 * sections, each shown with a one-line preview.
 */
module Notebook {
  import opened Wrappers
  import opened Types
  import opened Json
  import Seqs
  import Text

  /** Creation times never increase along the list. */
  predicate NewestFirst(cs: seq<Canvas>) {
    forall i, j :: 0 <= i < j < |cs| ==> cs[i].createdAt >= cs[j].createdAt
  }

  /** The canvases created at time `t`: the ties a stable sort must keep in order. */
  function CreatedAt(t: int): Canvas -> bool {
    (c: Canvas) => c.createdAt == t
  }

  /** Where a canvas created at `t` goes in a sorted list: after every canvas created no earlier. */
  function Cut(r: seq<Canvas>, t: int): (i: nat)
    ensures i <= |r|
    ensures forall k :: 0 <= k < i ==> r[k].createdAt >= t
    ensures NewestFirst(r) ==> forall k :: i <= k < |r| ==> r[k].createdAt < t
  {
    if |r| == 0 || r[0].createdAt < t then 0 else 1 + Cut(r[1..], t)
  }

  /** One insertion step of the sort. */
  function Insert(r: seq<Canvas>, x: Canvas): (q: seq<Canvas>)
    requires NewestFirst(r)
    ensures NewestFirst(q)
    ensures multiset(q) == multiset(r) + multiset{x}
  {
    var i := Cut(r, x.createdAt);
    InsertAtCut(r, x, i);
    r[..i] + [x] + r[i..]
  }

  /** Placing a canvas at its cut keeps the list sorted and adds exactly that canvas. */
  lemma InsertAtCut(r: seq<Canvas>, x: Canvas, i: nat)
    requires NewestFirst(r) && i == Cut(r, x.createdAt)
    ensures NewestFirst(r[..i] + [x] + r[i..])
    ensures multiset(r[..i] + [x] + r[i..]) == multiset(r) + multiset{x}
  {
    var q := r[..i] + [x] + r[i..];
    forall p, m | 0 <= p < m < |q| ensures q[p].createdAt >= q[m].createdAt {
      InsertedIndex(r, x, i, p);
      InsertedIndex(r, x, i, m);
    }
    SpliceMultiset(r, x, i);
  }

  lemma SpliceMultiset(r: seq<Canvas>, x: Canvas, i: nat)
    requires i <= |r|
    ensures multiset(r[..i] + [x] + r[i..]) == multiset(r) + multiset{x}
  {
    assert r == r[..i] + r[i..];
  }

  /** Where an element of the list with `x` spliced in at `i` comes from. */
  lemma InsertedIndex(r: seq<Canvas>, x: Canvas, i: nat, p: nat)
    requires i <= |r| && p <= |r|
    ensures (r[..i] + [x] + r[i..])[p] == if p < i then r[p] else if p == i then x else r[p - 1]
  {
  }

  /**
   * The list order of the pane: a stable sort by creation time, newest
   * first (`Array.prototype.sort` with a descending comparator, stable
   * since ES2019).
   */
  function SortNewestFirst(cs: seq<Canvas>): (r: seq<Canvas>)
    ensures NewestFirst(r)
    ensures multiset(r) == multiset(cs)
    decreases |cs|
  {
    if |cs| == 0 then []
    else
      assert cs == cs[..|cs| - 1] + [cs[|cs| - 1]];
      Insert(SortNewestFirst(cs[..|cs| - 1]), cs[|cs| - 1])
  }

  /** Filtering one run of ties around an inserted canvas that is newer than everything after it. */
  lemma FilterAroundInsert(a: seq<Canvas>, x: Canvas, b: seq<Canvas>, t: int)
    requires forall k :: 0 <= k < |b| ==> b[k].createdAt < x.createdAt
    ensures Seqs.Filter(a + [x] + b, CreatedAt(t)) == Seqs.Filter(a + b, CreatedAt(t)) + (if x.createdAt == t then [x] else [])
  {
    Seqs.FilterToEnd(a, x, b, CreatedAt(t));
  }

  /** Inserting a canvas appends it to the run of its ties and leaves every other run alone. */
  lemma InsertKeepsTies(r: seq<Canvas>, x: Canvas, t: int)
    requires NewestFirst(r)
    ensures Seqs.Filter(Insert(r, x), CreatedAt(t)) == Seqs.Filter(r, CreatedAt(t)) + (if x.createdAt == t then [x] else [])
  {
    var i := Cut(r, x.createdAt);
    var a, b := r[..i], r[i..];
    assert r == a + b;
    assert forall k :: 0 <= k < |b| ==> b[k] == r[i + k];
    FilterAroundInsert(a, x, b, t);
  }

  /** The sort is stable: canvases created at the same time keep their relative order. */
  lemma {:induction false} SortIsStable(cs: seq<Canvas>, t: int)
    ensures Seqs.Filter(SortNewestFirst(cs), CreatedAt(t)) == Seqs.Filter(cs, CreatedAt(t))
    decreases |cs|
  {
    if |cs| > 0 {
      var init, x := cs[..|cs| - 1], cs[|cs| - 1];
      assert cs == init + [x];
      SortIsStable(init, t);
      InsertKeepsTies(SortNewestFirst(init), x, t);
      Seqs.FilterConcat(init, [x], CreatedAt(t));
      assert Seqs.Filter([x], CreatedAt(t)) == (if x.createdAt == t then [x] else []);
    }
  }

  /** A non-empty filter starts with the first kept element. */
  lemma FilterHead(s: seq<Canvas>, f: Canvas -> bool)
    requires |s| > 0
    ensures Seqs.Filter(s, f) == (if f(s[0]) then [s[0]] else []) + Seqs.Filter(s[1..], f)
  {
  }

  /** The run of the first canvas's creation time is never empty. */
  lemma HeadRunNonEmpty(s: seq<Canvas>)
    requires |s| > 0
    ensures Seqs.Filter(s, CreatedAt(s[0].createdAt)) == [s[0]] + Seqs.Filter(s[1..], CreatedAt(s[0].createdAt))
  {
  }

  /** A sorted list stays sorted without its first canvas. */
  lemma NewestFirstTail(s: seq<Canvas>)
    requires NewestFirst(s) && |s| > 0
    ensures NewestFirst(s[1..])
  {
  }

  /** No canvas of a sorted list is newer than its first. */
  lemma HeadIsNewest(s: seq<Canvas>)
    requires NewestFirst(s) && |s| > 0
    ensures forall k :: 0 <= k < |s| ==> s[k].createdAt <= s[0].createdAt
  {
  }

  /** A list with nothing created at `t` has an empty run for `t`. */
  lemma NoRunAbove(s: seq<Canvas>, top: int, t: int)
    requires forall k :: 0 <= k < |s| ==> s[k].createdAt <= top
    requires top < t
    ensures Seqs.Filter(s, CreatedAt(t)) == []
  {
    forall k | 0 <= k < |s| ensures !CreatedAt(t)(s[k]) {
    }
    Seqs.FilterNone(s, CreatedAt(t));
  }

  /** Two sorted lists that agree on the runs of both their first creation times start alike. */
  lemma SameHead(a: seq<Canvas>, b: seq<Canvas>)
    requires NewestFirst(a) && NewestFirst(b) && |a| > 0 && |b| > 0
    requires Seqs.Filter(a, CreatedAt(a[0].createdAt)) == Seqs.Filter(b, CreatedAt(a[0].createdAt))
    requires Seqs.Filter(a, CreatedAt(b[0].createdAt)) == Seqs.Filter(b, CreatedAt(b[0].createdAt))
    ensures a[0] == b[0]
  {
    var ta, tb := a[0].createdAt, b[0].createdAt;
    HeadRunNonEmpty(a);
    HeadRunNonEmpty(b);
    HeadIsNewest(a);
    HeadIsNewest(b);
    var runA := Seqs.Filter(a, CreatedAt(ta));
    var runB := Seqs.Filter(b, CreatedAt(tb));
    assert runA[0] == a[0] && runB[0] == b[0];
    if ta > tb {
      NoRunAbove(b, tb, ta);
      assert false;
    } else if tb > ta {
      NoRunAbove(a, ta, tb);
      assert false;
    } else {
      assert runA == runB;
    }
  }

  /** Dropping a common first element keeps two lists' runs equal. */
  lemma SameTailRuns(a: seq<Canvas>, b: seq<Canvas>, t: int)
    requires |a| > 0 && |b| > 0 && a[0] == b[0]
    requires Seqs.Filter(a, CreatedAt(t)) == Seqs.Filter(b, CreatedAt(t))
    ensures Seqs.Filter(a[1..], CreatedAt(t)) == Seqs.Filter(b[1..], CreatedAt(t))
  {
    FilterHead(a, CreatedAt(t));
    FilterHead(b, CreatedAt(t));
  }

  /** Lists that agree on their first element and on the rest are equal. */
  lemma SameHeadSameTail(a: seq<Canvas>, b: seq<Canvas>)
    requires |a| > 0 && |b| > 0 && a[0] == b[0] && a[1..] == b[1..]
    ensures a == b
  {
    assert a == [a[0]] + a[1..] && b == [b[0]] + b[1..];
  }

  /** Two lists with the same runs and one of them empty are both empty. */
  lemma EmptyRuns(a: seq<Canvas>, b: seq<Canvas>)
    requires |a| == 0 || |b| == 0
    requires forall t :: Seqs.Filter(a, CreatedAt(t)) == Seqs.Filter(b, CreatedAt(t))
    ensures a == b
  {
    if |b| > 0 {
      var run := Seqs.Filter(b, CreatedAt(b[0].createdAt));
      assert false;
    } else if |a| > 0 {
      var run := Seqs.Filter(a, CreatedAt(a[0].createdAt));
      assert false;
    }
  }

  /**
   * Sorted order and the order within each run of ties fix a list
   * completely: two such lists that agree on every run are equal.
   */
  lemma {:induction false} SortedRunsDetermine(a: seq<Canvas>, b: seq<Canvas>)
    requires NewestFirst(a) && NewestFirst(b)
    requires forall t :: Seqs.Filter(a, CreatedAt(t)) == Seqs.Filter(b, CreatedAt(t))
    ensures a == b
    decreases |a|
  {
    if |a| == 0 || |b| == 0 {
      EmptyRuns(a, b);
    } else {
      SameHead(a, b);
      NewestFirstTail(a);
      NewestFirstTail(b);
      forall t ensures Seqs.Filter(a[1..], CreatedAt(t)) == Seqs.Filter(b[1..], CreatedAt(t)) {
        SameTailRuns(a, b, t);
      }
      SortedRunsDetermine(a[1..], b[1..]);
      SameHeadSameTail(a, b);
    }
  }

  /** Sorting a list that is already newest first changes nothing; in particular sorting is idempotent. */
  lemma SortSorted(cs: seq<Canvas>)
    requires NewestFirst(cs)
    ensures SortNewestFirst(cs) == cs
  {
    forall t ensures Seqs.Filter(SortNewestFirst(cs), CreatedAt(t)) == Seqs.Filter(cs, CreatedAt(t)) {
      SortIsStable(cs, t);
    }
    SortedRunsDetermine(SortNewestFirst(cs), cs);
  }

  /**
   * What the search reads from one block, as written: a CODE or TODO
   * payload whose field is truthy but not a string makes `toLowerCase`
   * throw outside the `try`, and the throw escapes the whole filter.
   */
  datatype Probe = Readable(s: string) | Escapes

  /** The payload field the search reads for the encoded block types. */
  function PayloadKey(t: BlockType): (key: Option<string>)
    ensures key.Some? <==> t == Code || t == Todo
  {
    match t
    case Code => Some("code")
    case Todo => Some("text")
    case _ => None
  }

  /** The searchable text of a block as the source computes it. */
  function SearchTextAsWritten(b: Block, parse: string -> Option<Json>): (p: Probe)
    ensures PayloadKey(b.kind).None? ==> p == Readable(b.content)
    ensures parse(b.content).None? ==> p == Readable(b.content)
  {
    match PayloadKey(b.kind)
    case None => Readable(b.content)
    case Some(key) =>
      match parse(b.content)
      case None => Readable(b.content)
      case Some(v) =>
        match Get(v, key)
        case Throws => Readable(b.content)
        case Undefined => Readable("")
        case Value(x) =>
          if !Truthy(Value(x)) then Readable("")
          else if x.JStr? then Readable(x.s)
          else Escapes
  }

  /**
   * The searchable text of a block with the escaping case handled like
   * malformed JSON: the raw content is searched.
   */
  function SearchText(b: Block, parse: string -> Option<Json>): (s: string)
    ensures SearchTextAsWritten(b, parse).Readable? ==> s == SearchTextAsWritten(b, parse).s
    ensures SearchTextAsWritten(b, parse).Escapes? ==> s == b.content
    ensures PayloadKey(b.kind).Some? && parse(b.content).Some? && Get(parse(b.content).value, PayloadKey(b.kind).value).Value?
      && Get(parse(b.content).value, PayloadKey(b.kind).value).v.JStr?
      ==> s == Get(parse(b.content).value, PayloadKey(b.kind).value).v.s
  {
    match PayloadKey(b.kind)
    case None => b.content
    case Some(key) =>
      match parse(b.content)
      case None => b.content
      case Some(v) =>
        match Get(v, key)
        case Throws => b.content
        case Undefined => ""
        case Value(x) =>
          if x.JStr? then x.s
          else if Truthy(Value(x)) then b.content
          else ""
  }

  /** A CODE block whose stored `code` is the number 1 makes the search as written throw. */
  lemma NumericCodeEscapes(b: Block, parse: string -> Option<Json>)
    requires b.kind == Code
    requires parse(b.content) == Some(JObj(map["code" := JNum(1)]))
    ensures SearchTextAsWritten(b, parse) == Escapes
    ensures SearchText(b, parse) == b.content
  {
  }

  /** A block matches when its searchable text, lower-cased, contains the term. */
  predicate BlockHit(b: Block, term: string, parse: string -> Option<Json>) {
    Text.Includes(Text.Lower(SearchText(b, parse)), term)
  }

  /** A canvas matches on its title or on any of its blocks. */
  predicate CanvasHit(c: Canvas, term: string, parse: string -> Option<Json>) {
    || Text.Includes(Text.Lower(c.title), term)
    || (c.blocks.Some? && exists k :: 0 <= k < |c.blocks.value| && BlockHit(c.blocks.value[k], term, parse))
  }

  /** The search box: an empty term shows everything, otherwise the matching canvases in order. */
  function SearchFilter(sorted: seq<Canvas>, search: string, parse: string -> Option<Json>): (r: seq<Canvas>)
    ensures search == "" ==> r == sorted
    ensures |r| <= |sorted|
  {
    var term := Text.Lower(search);
    if term == "" then sorted else Seqs.Filter(sorted, Hits(term, parse))
  }

  /**
   * A non-empty search keeps the matching canvases in the sorted order: the
   * result is the sorted list read at increasing positions that include
   * every matching canvas.
   */
  lemma SearchInOrder(sorted: seq<Canvas>, search: string, parse: string -> Option<Json>)
    requires search != ""
    ensures exists idx ::
      && Seqs.PicksOut(SearchFilter(sorted, search, parse), sorted, idx)
      && forall i :: 0 <= i < |sorted| && CanvasHit(sorted[i], Text.Lower(search), parse) ==> i in idx
  {
    var f := Hits(Text.Lower(search), parse);
    var idx := Seqs.Kept(sorted, f);
    assert SearchFilter(sorted, search, parse) == Seqs.Filter(sorted, f);
    assert forall i :: 0 <= i < |sorted| && CanvasHit(sorted[i], Text.Lower(search), parse) ==> f(sorted[i]);
    assert Seqs.PicksOut(SearchFilter(sorted, search, parse), sorted, idx);
  }

  /** The filter's test for a lower-cased, non-empty term. */
  function Hits(term: string, parse: string -> Option<Json>): Canvas -> bool {
    (c: Canvas) => CanvasHit(c, term, parse)
  }

  /**
   * `canvas.blocks.some(...)` as written: the blocks are tried in order and
   * the first hit ends the search; `None` when a block's text escapes the
   * `try` before any hit, which throws out of the whole filter.
   */
  function SomeBlockAsWritten(bs: seq<Block>, term: string, parse: string -> Option<Json>): (r: Option<bool>)
    ensures r == Some(true) ==> exists k :: 0 <= k < |bs| && BlockHit(bs[k], term, parse)
    ensures r == Some(false) ==> forall k :: 0 <= k < |bs| ==> !BlockHit(bs[k], term, parse)
    ensures r.None? ==> exists k :: 0 <= k < |bs| && SearchTextAsWritten(bs[k], parse).Escapes?
    decreases |bs|
  {
    if |bs| == 0 then Some(false)
    else match SearchTextAsWritten(bs[0], parse)
      case Escapes => None
      case Readable(t) =>
        if Text.Includes(Text.Lower(t), term) then Some(true)
        else
          var rest := SomeBlockAsWritten(bs[1..], term, parse);
          assert forall k :: 0 < k < |bs| ==> bs[k] == bs[1..][k - 1];
          rest
  }

  /**
   * One canvas's test as written: the title test, then the block test,
   * which runs even when the title already matched.
   */
  function CanvasHitAsWritten(c: Canvas, term: string, parse: string -> Option<Json>): (r: Option<bool>)
    ensures r.Some? ==> (r.value <==> CanvasHit(c, term, parse))
    ensures r.None? ==> c.blocks.Some? && exists k :: 0 <= k < |c.blocks.value| && SearchTextAsWritten(c.blocks.value[k], parse).Escapes?
  {
    var titleMatch := Text.Includes(Text.Lower(c.title), term);
    if c.blocks.None? then Some(titleMatch)
    else match SomeBlockAsWritten(c.blocks.value, term, parse)
      case None => None
      case Some(contentMatch) => Some(titleMatch || contentMatch)
  }

  /** `sortedCanvases.filter(...)` as written: `None` when testing some canvas throws. */
  function FilterAsWritten(cs: seq<Canvas>, term: string, parse: string -> Option<Json>): (r: Option<seq<Canvas>>)
    ensures r.Some? ==> r.value == Seqs.Filter(cs, Hits(term, parse))
    ensures r.None? <==> exists k :: 0 <= k < |cs| && CanvasHitAsWritten(cs[k], term, parse).None?
    decreases |cs|
  {
    if |cs| == 0 then Some([])
    else
      assert forall k :: 0 < k < |cs| ==> cs[k] == cs[1..][k - 1];
      match CanvasHitAsWritten(cs[0], term, parse)
      case None => None
      case Some(hit) =>
        match FilterAsWritten(cs[1..], term, parse)
        case None => None
        case Some(rest) => Some(if hit then [cs[0]] + rest else rest)
  }

  /**
   * The search box as written: an empty term shows everything; otherwise the
   * matching canvases, unless a CODE or TODO payload with a truthy
   * non-string field is reached, in which case the filter throws (`None`).
   */
  function SearchFilterAsWritten(sorted: seq<Canvas>, search: string, parse: string -> Option<Json>): (r: Option<seq<Canvas>>)
    ensures search == "" ==> r == Some(sorted)
    ensures r.Some? ==> r.value == SearchFilter(sorted, search, parse)
    ensures r.None? ==> search != "" && exists k :: 0 <= k < |sorted| && CanvasHitAsWritten(sorted[k], Text.Lower(search), parse).None?
  {
    var term := Text.Lower(search);
    if term == "" then Some(sorted) else FilterAsWritten(sorted, term, parse)
  }

  /** Where no block's text escapes, the filter as written and the corrected one agree. */
  lemma SearchAgreesWithoutEscapes(sorted: seq<Canvas>, search: string, parse: string -> Option<Json>)
    requires forall k, j :: 0 <= k < |sorted| && sorted[k].blocks.Some? && 0 <= j < |sorted[k].blocks.value| ==>
      SearchTextAsWritten(sorted[k].blocks.value[j], parse).Readable?
    ensures SearchFilterAsWritten(sorted, search, parse) == Some(SearchFilter(sorted, search, parse))
  {
  }

  /**
   * A note holding one CODE block whose stored `code` is the number 1 makes
   * the search as written throw for every non-empty term, where the
   * corrected search still lists or drops the note.
   */
  lemma NumericCodeBreaksSearch(c: Canvas, search: string, parse: string -> Option<Json>)
    requires search != ""
    requires c.blocks.Some? && |c.blocks.value| == 1 && c.blocks.value[0].kind == Code
    requires parse(c.blocks.value[0].content) == Some(JObj(map["code" := JNum(1)]))
    ensures SearchFilterAsWritten([c], search, parse).None?
    ensures SearchFilter([c], search, parse) == if CanvasHit(c, Text.Lower(search), parse) then [c] else []
  {
    assert SearchTextAsWritten(c.blocks.value[0], parse) == Escapes;
    assert [c][1..] == [];
  }

  /** A canvas is listed exactly when it is in the sorted list and the search is empty or it matches. */
  lemma SearchMembers(sorted: seq<Canvas>, search: string, parse: string -> Option<Json>, c: Canvas)
    ensures c in SearchFilter(sorted, search, parse) <==>
      c in sorted && (search == "" || CanvasHit(c, Text.Lower(search), parse))
  {
    var term := Text.Lower(search);
    if term != "" {
      var f := Hits(term, parse);
      Seqs.FilterMembers(sorted, f);
      var r := Seqs.Filter(sorted, f);
      if c in r {
        var k :| 0 <= k < |r| && r[k] == c;
        assert f(r[k]);
      }
    }
  }

  /** The empty string contains only the empty string. */
  lemma IncludedInEmpty(t: string)
    requires Text.Includes("", t)
    ensures t == ""
  {
    var i: nat :| i <= 0 && Text.OccursAt("", t, i);
  }

  /** Typing more of a term only narrows the list: a longer term keeps a subset. */
  lemma NarrowingSearch(sorted: seq<Canvas>, s1: string, s2: string, parse: string -> Option<Json>, c: Canvas)
    requires Text.Includes(Text.Lower(s2), Text.Lower(s1))
    requires c in SearchFilter(sorted, s2, parse)
    ensures c in SearchFilter(sorted, s1, parse)
  {
    var t1, t2 := Text.Lower(s1), Text.Lower(s2);
    SearchMembers(sorted, s2, parse, c);
    SearchMembers(sorted, s1, parse, c);
    if s1 != "" {
      if s2 == "" {
        IncludedInEmpty(t1);
      } else if Text.Includes(Text.Lower(c.title), t2) {
        Text.IncludesTrans(Text.Lower(c.title), t2, t1);
      } else {
        var bs := c.blocks.value;
        var k :| 0 <= k < |bs| && BlockHit(bs[k], t2, parse);
        Text.IncludesTrans(Text.Lower(SearchText(bs[k], parse)), t2, t1);
        assert BlockHit(bs[k], t1, parse);
      }
    }
  }

  /** The two sections of the list. */
  datatype Sections = Sections(pinned: seq<Canvas>, unpinned: seq<Canvas>)

  /** The listed canvases split by their pin flag, each section in list order. */
  function Split(cs: seq<Canvas>): (r: Sections)
    ensures forall k :: 0 <= k < |r.pinned| ==> Pinned(r.pinned[k])
    ensures forall k :: 0 <= k < |r.unpinned| ==> !Pinned(r.unpinned[k])
    ensures multiset(r.pinned) + multiset(r.unpinned) == multiset(cs)
  {
    var isPinned := (c: Canvas) => Pinned(c);
    var notPinned := (c: Canvas) => !Pinned(c);
    Seqs.FilterSplit(cs, isPinned, notPinned);
    Sections(Seqs.Filter(cs, isPinned), Seqs.Filter(cs, notPinned))
  }

  /** Each canvas lands in the section its pin flag names; the canvases around it keep their sections and order. */
  lemma SplitAround(a: seq<Canvas>, x: Canvas, b: seq<Canvas>)
    ensures Split(a + [x] + b).pinned == Split(a).pinned + (if Pinned(x) then [x] else []) + Split(b).pinned
    ensures Split(a + [x] + b).unpinned == Split(a).unpinned + (if Pinned(x) then [] else [x]) + Split(b).unpinned
  {
    Seqs.FilterAround(a, x, b, (c: Canvas) => Pinned(c));
    Seqs.FilterAround(a, x, b, (c: Canvas) => !Pinned(c));
  }

  const PlaygroundPreview := "HTML/CSS/JS Playground"
  const NoContent := "No content"

  /** TEXT and HEADING blocks carry prose the preview can show directly. */
  predicate IsProse(b: Block) {
    b.kind == BlockType.Text || b.kind == Heading
  }

  /** The first prose block (`Array.prototype.find`). */
  function FirstProse(bs: seq<Block>): (r: Option<nat>)
    ensures r.Some? ==> r.value < |bs| && IsProse(bs[r.value])
    ensures r.Some? ==> forall k :: 0 <= k < r.value ==> !IsProse(bs[k])
    ensures r.None? ==> forall k :: 0 <= k < |bs| ==> !IsProse(bs[k])
  {
    if |bs| == 0 then None
    else if IsProse(bs[0]) then Some(0)
    else match FirstProse(bs[1..])
      case None => None
      case Some(j) => Some(j + 1)
  }

  /** The bracketed label of a block type, e.g. `[image block]`. */
  function BlockLabel(t: BlockType): (s: string)
    ensures |s| == |BlockTypeName(t)| + 8
    ensures s[..1] == "[" && s[|s| - 7..] == " block]"
    ensures s[1..|s| - 7] == Text.Lower(BlockTypeName(t))
  {
    "[" + Text.Lower(BlockTypeName(t)) + " block]"
  }

  /** The first `n` characters of `s` (`substring(0, n)`). */
  function Prefix(s: string, n: nat): (r: string)
    ensures |r| == (if |s| < n then |s| else n)
    ensures r == s[..|r|]
  {
    if |s| < n then s else s[..n]
  }

  /** The line under a canvas title in the list. */
  function PreviewText(c: Canvas, parse: string -> Option<Json>): (r: string)
    ensures c.kind == Playground ==> r == PlaygroundPreview
    ensures c.kind == Note && (c.blocks.None? || |c.blocks.value| == 0) ==> r == NoContent
    ensures forall j ::
      (c.kind == Note && c.blocks.Some? && 0 <= j < |c.blocks.value| && IsProse(c.blocks.value[j])
        && forall k :: 0 <= k < j ==> !IsProse(c.blocks.value[k]))
      ==>
      (if c.blocks.value[j].kind == Heading then r == "H: " + c.blocks.value[j].content
       else r == Prefix(c.blocks.value[j].content, 100))
    ensures
      (c.kind == Note && c.blocks.Some? && |c.blocks.value| > 0
        && forall k :: 0 <= k < |c.blocks.value| ==> !IsProse(c.blocks.value[k]))
      ==>
      var first := c.blocks.value[0];
      && (first.kind != Todo ==> r == BlockLabel(first.kind))
      && (first.kind == Todo && parse(first.content).None? ==> r == BlockLabel(Todo))
      && (first.kind == Todo && parse(first.content).Some? ==> r == StringOr(Get(parse(first.content).value, "text"), BlockLabel(Todo)))
  {
    if c.kind == Playground then PlaygroundPreview
    else if c.blocks.None? || |c.blocks.value| == 0 then NoContent
    else
      var bs := c.blocks.value;
      match FirstProse(bs)
      case Some(i) =>
        if bs[i].kind == Heading then "H: " + bs[i].content else Prefix(bs[i].content, 100)
      case None =>
        var first := bs[0];
        if first.kind == Todo then
          match parse(first.content)
          case None => BlockLabel(Todo)
          case Some(v) => StringOr(Get(v, "text"), BlockLabel(Todo))
        else BlockLabel(first.kind)
  }

  /** The label a TODO block falls back to. */
  lemma TodoLabel()
    ensures BlockLabel(Todo) == "[todo block]"
  {
    Text.LowerTodo();
  }

  /** The first prose block is found again when more blocks follow. */
  lemma {:induction false} FirstProseAppend(bs: seq<Block>, more: seq<Block>)
    requires FirstProse(bs).Some?
    ensures FirstProse(bs + more) == FirstProse(bs)
    decreases |bs|
  {
    if !IsProse(bs[0]) {
      assert (bs + more)[1..] == bs[1..] + more;
      FirstProseAppend(bs[1..], more);
    }
  }

  /**
   * Once a note has a prose block, blocks added after it never change its
   * preview: the preview is decided by the first prose block alone.
   */
  lemma PreviewStableUnderAppend(c: Canvas, more: seq<Block>, parse: string -> Option<Json>)
    requires c.kind == Note && c.blocks.Some? && FirstProse(c.blocks.value).Some?
    ensures PreviewText(c.(blocks := Some(c.blocks.value + more)), parse) == PreviewText(c, parse)
  {
    FirstProseAppend(c.blocks.value, more);
  }

  /** A note whose first block is a heading previews as that heading. */
  lemma HeadingFirst(c: Canvas, parse: string -> Option<Json>)
    requires c.kind == Note && c.blocks.Some? && |c.blocks.value| > 0 && c.blocks.value[0].kind == Heading
    ensures PreviewText(c, parse) == "H: " + c.blocks.value[0].content
  {
    assert IsProse(c.blocks.value[0]);
  }
}
