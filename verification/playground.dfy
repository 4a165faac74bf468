/**
 * The playground editor: a local draft of the three buffers, handed to the
 * workspace 500 ms after the last edit, and the console panel fed by
 * messages from the preview frame.
 */
module Playground {
  import opened Wrappers
  import opened Types
  import Seqs

  /** The three buffers an editor writes to. */
  datatype Field = Html | Css | Js

  /** `{ ...prev, [field]: value }`. */
  function SetField(p: PlaygroundContent, f: Field, value: string): (r: PlaygroundContent)
    ensures f == Html ==> r == p.(html := value)
    ensures f == Css ==> r == p.(css := value)
    ensures f == Js ==> r == p.(js := value)
  {
    match f
    case Html => p.(html := value)
    case Css => p.(css := value)
    case Js => p.(js := value)
  }

  function FieldOf(p: PlaygroundContent, f: Field): string {
    match f
    case Html => p.html
    case Css => p.css
    case Js => p.js
  }

  /** Setting a buffer sets that buffer and no other. */
  lemma SetFieldOnly(p: PlaygroundContent, f: Field, value: string, g: Field)
    ensures FieldOf(SetField(p, f, value), g) == if g == f then value else FieldOf(p, g)
  {
  }

  /**
   * The editor's state: the draft, the live debounce timer (by handle) and
   * the next handle the timer API will give out.
   */
  datatype Editor = Editor(canvasId: Id, draft: PlaygroundContent, armed: Option<nat>, nextHandle: nat)

  /** Opening a playground: the draft starts from the stored buffers (three empty ones when absent) and the timer is armed. */
  function Mount(c: Canvas, firstHandle: nat): (e: Editor)
    ensures e.draft == c.playgroundContent.GetOr(EmptyPlayground)
    ensures e.armed == Some(firstHandle) && e.canvasId == c.id
  {
    Editor(c.id, c.playgroundContent.GetOr(EmptyPlayground), Some(firstHandle), firstHandle + 1)
  }

  /** An edit: the draft changes, the pending timer is cleared and a fresh one armed. */
  function Edit(e: Editor, f: Field, value: string): (r: Editor)
    ensures r.draft == SetField(e.draft, f, value)
    ensures r.armed == Some(e.nextHandle) && r.nextHandle > e.nextHandle
    ensures r.canvasId == e.canvasId
  {
    Editor(e.canvasId, SetField(e.draft, f, value), Some(e.nextHandle), e.nextHandle + 1)
  }

  /** What the workspace receives: the content update for a canvas. */
  datatype Commit = Commit(canvasId: Id, content: PlaygroundContent)

  /** A timer fires: only the live one commits the draft; a cleared one does nothing. */
  function Fire(e: Editor, h: nat): (r: (Editor, Option<Commit>))
    ensures r.1.Some? <==> e.armed == Some(h)
    ensures r.1.Some? ==> r.1.value == Commit(e.canvasId, e.draft) && r.0.armed.None?
    ensures r.0.draft == e.draft
  {
    if e.armed == Some(h) then (e.(armed := None), Some(Commit(e.canvasId, e.draft))) else (e, None)
  }

  /** Leaving the playground: the pending timer is cleared. */
  function Unmount(e: Editor): (r: Editor)
    ensures r.armed.None? && r.draft == e.draft
  {
    e.(armed := None)
  }

  /** Handles the editor has given out so far are all below `nextHandle`. */
  predicate Wellformed(e: Editor) {
    e.armed.Some? ==> e.armed.value < e.nextHandle
  }

  lemma EditWellformed(e: Editor, f: Field, value: string)
    ensures Wellformed(Edit(e, f, value))
  {
  }

  /**
   * Two quick edits: the first edit's timer was cleared, so it commits
   * nothing, and the second commits the draft holding both edits.
   */
  lemma QuickEditsCommitOnce(e: Editor, f1: Field, v1: string, f2: Field, v2: string)
    requires Wellformed(e)
    ensures var e1 := Edit(e, f1, v1);
      var e2 := Edit(e1, f2, v2);
      && Fire(e2, e1.armed.value).1.None?
      && Fire(e2, e2.armed.value).1 == Some(Commit(e.canvasId, SetField(SetField(e.draft, f1, v1), f2, v2)))
  {
  }

  /** A commit is delivered at most once: after firing, the same handle does nothing. */
  lemma FireOnce(e: Editor, h: nat)
    ensures Fire(Fire(e, h).0, h).1.None?
  {
  }

  /**
   * Leaving within 500 ms of an edit loses it: the cleared timer never
   * commits, so the workspace keeps the older content.
   */
  lemma UnmountDropsPendingEdit(e: Editor, f: Field, value: string, h: nat)
    ensures Fire(Unmount(Edit(e, f, value)), h).1.None?
  {
  }

  /** A message posted to the window, as far as the console panel looks at it. */
  datatype Message = Message(source: Option<string>, kind: Option<string>, args: seq<string>)

  const ConsoleKinds: set<string> := {"log", "warn", "error"}

  /** The console's listener: messages tagged by the preview frame with a console kind are kept. */
  predicate IsConsoleMessage(m: Message) {
    m.source == Some("playground-log") && m.kind.Some? && m.kind.value in ConsoleKinds
  }

  /** The console after a batch of messages: the accepted ones appended in arrival order. */
  function Receive(logs: seq<Message>, incoming: seq<Message>): (r: seq<Message>)
    ensures |logs| <= |r| <= |logs| + |incoming|
    ensures r[..|logs|] == logs
    ensures forall k :: |logs| <= k < |r| ==> IsConsoleMessage(r[k])
    decreases |incoming|
  {
    if |incoming| == 0 then logs
    else
      var m := incoming[|incoming| - 1];
      var before := Receive(logs, incoming[..|incoming| - 1]);
      if IsConsoleMessage(m) then before + [m] else before
  }

  /** Receiving in two batches is receiving them together. */
  lemma {:induction false} ReceiveConcat(logs: seq<Message>, a: seq<Message>, b: seq<Message>)
    ensures Receive(Receive(logs, a), b) == Receive(logs, a + b)
    decreases |b|
  {
    if |b| == 0 {
      assert a + b == a;
    } else {
      ReceiveConcat(logs, a, b[..|b| - 1]);
      assert (a + b)[..|a + b| - 1] == a + b[..|b| - 1];
    }
  }

  /** Messages from elsewhere never reach the console. */
  lemma {:induction false} ForeignMessagesIgnored(logs: seq<Message>, incoming: seq<Message>)
    requires forall k :: 0 <= k < |incoming| ==> !IsConsoleMessage(incoming[k])
    ensures Receive(logs, incoming) == logs
    decreases |incoming|
  {
    if |incoming| > 0 {
      ForeignMessagesIgnored(logs, incoming[..|incoming| - 1]);
    }
  }

  /**
   * The console holds what it held plus the accepted messages, in order;
   * after the clear button (which empties it) it holds exactly the accepted
   * messages since.
   */
  lemma {:induction false} ReceiveIsFilter(logs: seq<Message>, incoming: seq<Message>)
    ensures Receive(logs, incoming) == logs + Seqs.Filter(incoming, IsConsoleMessage)
    decreases |incoming|
  {
    if |incoming| == 0 {
      Seqs.AppendEmpty(logs);
    } else {
      var init, m := incoming[..|incoming| - 1], incoming[|incoming| - 1];
      var extra := if IsConsoleMessage(m) then [m] else [];
      var accepted := Seqs.Filter(init, IsConsoleMessage);
      assert incoming == init + [m];
      assert Receive(logs, init) == logs + accepted by {
        ReceiveIsFilter(logs, init);
      }
      assert Receive(logs, incoming) == Receive(logs, init) + extra by {
        ReceiveStep(logs, init, m);
      }
      assert Seqs.Filter(incoming, IsConsoleMessage) == accepted + extra by {
        Seqs.FilterSnoc(init, m, IsConsoleMessage);
      }
      Seqs.AppendAssoc(logs, accepted, extra);
    }
  }

  /** One more message: appended when the console accepts it. */
  lemma ReceiveStep(logs: seq<Message>, init: seq<Message>, m: Message)
    ensures Receive(logs, init + [m]) == Receive(logs, init) + (if IsConsoleMessage(m) then [m] else [])
  {
    assert (init + [m])[..|init|] == init;
    if !IsConsoleMessage(m) {
      Seqs.AppendEmpty(Receive(logs, init));
    }
  }
}
