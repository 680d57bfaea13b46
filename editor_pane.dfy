/**
 * The Editor component's writing-assistant flow: the blank-instruction guard
 * (JavaScript's `trim`), the trailing context window sent with a request, the
 * rule that joins the suggestion to the content, and the component's two
 * state fields. The awaited call is split in two: `HandleAiAction` is the part
 * before the `await`, `CompleteAiAction` the part after it.
 */
module EditorPane {
  import opened Wrappers
  import opened Documents
  import Workspace
  import opened AppShell
  import opened SuggestionClient

  /** How many trailing characters of the content are sent as context. */
  const ContextLength: nat := 800

  /** The characters `String.prototype.trim` removes: white space and line terminators of ECMAScript. */
  predicate IsWhiteSpace(c: char) {
    || c == '\t' || c == '\n' || c == '\U{B}' || c == '\U{C}' || c == '\r' || c == ' '
    || c == '\U{A0}' || c == '\U{1680}' || ('\U{2000}' <= c <= '\U{200A}')
    || c == '\U{2028}' || c == '\U{2029}' || c == '\U{202F}' || c == '\U{205F}'
    || c == '\U{3000}' || c == '\U{FEFF}'
  }

  /** Every character is white space (the empty string included). */
  predicate IsBlank(s: string) {
    forall i :: 0 <= i < |s| ==> IsWhiteSpace(s[i])
  }

  /** Leading white space removed: what is left is a suffix that starts with a visible character. */
  function TrimStart(s: string): (r: string)
    ensures |r| <= |s| && r == s[|s| - |r|..]
    ensures forall i :: 0 <= i < |s| - |r| ==> IsWhiteSpace(s[i])
    ensures r != [] ==> !IsWhiteSpace(r[0])
  {
    if s != [] && IsWhiteSpace(s[0]) then TrimStart(s[1..]) else s
  }

  /** Trailing white space removed: what is left is a prefix that ends with a visible character. */
  function TrimEnd(s: string): (r: string)
    ensures |r| <= |s| && r == s[..|r|]
    ensures forall i :: |r| <= i < |s| ==> IsWhiteSpace(s[i])
    ensures r != [] ==> !IsWhiteSpace(r[|r| - 1])
  {
    if s != [] && IsWhiteSpace(s[|s| - 1]) then TrimEnd(s[..|s| - 1]) else s
  }

  /** `s.trim()`: empty exactly when `s` is blank, and otherwise visible at both ends. */
  function Trim(s: string): (r: string)
    ensures r == "" <==> IsBlank(s)
    ensures r != "" ==> !IsWhiteSpace(r[0]) && !IsWhiteSpace(r[|r| - 1])
    ensures |r| <= |s|
  {
    var t := TrimStart(s);
    var r := TrimEnd(t);
    assert r == "" ==> IsBlank(s) by {
      if r == "" {
        forall i | 0 <= i < |s| ensures IsWhiteSpace(s[i]) {
          if i >= |s| - |t| {
            assert s[i] == t[i - (|s| - |t|)];
          }
        }
      }
    }
    r
  }

  /** `s.slice(start)`, where a negative start counts back from the end. */
  function SliceFrom(s: string, start: int): (r: string)
    ensures |r| <= |s| && r == s[|s| - |r|..]
    ensures start < 0 ==> |r| == if -start < |s| then -start else |s|
    ensures start >= 0 ==> |r| == if start < |s| then |s| - start else 0
  {
    var k := if start < 0 then (if |s| + start < 0 then 0 else |s| + start)
             else (if start < |s| then start else |s|);
    s[k..]
  }

  /** `content.slice(-800)`: the last 800 characters, or all of a shorter content. */
  function ContextWindow(content: string): (r: string)
    ensures |r| == if |content| < ContextLength then |content| else ContextLength
    ensures r == content[|content| - |r|..]
    ensures |content| <= ContextLength ==> r == content
  {
    SliceFrom(content, -(ContextLength as int))
  }

  /**
   * `content + (content.length > 0 ? "\n\n" : "") + suggestion`: the old
   * content is kept as a prefix, the suggestion ends the result, and a blank
   * line separates them unless the old content was empty.
   */
  function AppendSuggestion(base: string, suggestion: string): (r: string)
    ensures base <= r && |suggestion| <= |r| && r[|r| - |suggestion|..] == suggestion
    ensures base == "" ==> r == suggestion
    ensures base != "" ==> |r| == |base| + 2 + |suggestion| && r[|base|..|base| + 2] == "\n\n"
  {
    base + (if |base| > 0 then "\n\n" else "") + suggestion
  }

  /** A suggestion always lengthens the content: the old content is a proper prefix. */
  lemma AppendedContentGrows(base: string, o: Outcome)
    ensures base < AppendSuggestion(base, SuggestionText(o))
  {
  }


  /** What the part before the `await` hands to the part after it: the call's arguments and the captured props. */
  datatype Request = Request(context: string, instruction: string, base: string, target: string)

  /**
   * The join uses the content captured when the request began: an edit of
   * the target's content made while the request was out leaves no trace once
   * the suggestion is written.
   */
  lemma InterimEditIsOverwritten(s: Workspace.AppState, typed: string, t0: Timestamp, req: Request, o: Outcome, now: Timestamp)
    ensures var joined := AppendSuggestion(req.base, SuggestionText(o));
            Workspace.UpdateContent(Workspace.UpdateContent(s, req.target, typed, t0), req.target, joined, now)
            == Workspace.UpdateContent(s, req.target, joined, now)
  {
    UpdateLastWriteWins(s.documents, req.target, typed, AppendSuggestion(req.base, SuggestionText(o)), t0, now);
  }

  /** Ctrl+Enter or Cmd+Enter in the instruction field. */
  predicate IsSubmitShortcut(key: string, ctrlKey: bool, metaKey: bool) {
    key == "Enter" && (ctrlKey || metaKey)
  }

  class Editor {
    var aiPrompt: string
    var isAiLoading: bool

    constructor ()
      ensures aiPrompt == "" && !isAiLoading
    {
      aiPrompt := "";
      isAiLoading := false;
    }

    /** The instruction field's change handler. */
    method SetPrompt(p: string)
      modifies this
      ensures aiPrompt == p && isAiLoading == old(isAiLoading)
    {
      aiPrompt := p;
    }

    /** The Sync AI button is enabled when nothing is loading and the instruction is not empty. */
    predicate SyncEnabled()
      reads this
    {
      !isAiLoading && aiPrompt != ""
    }

    /**
     * `handleAiAction` up to its `await`, for the editor showing the app's
     * active document: a blank instruction changes nothing; otherwise loading
     * starts and the request carries the last 800 characters and the instruction.
     */
    method HandleAiAction(app: App) returns (req: Option<Request>)
      requires app.ActiveDoc().Some?
      modifies this
      ensures var d := app.ActiveDoc().value;
              Trim(old(aiPrompt)) != "" ==>
                && req == Some(Request(ContextWindow(d.content), old(aiPrompt), d.content, d.id))
                && isAiLoading && aiPrompt == old(aiPrompt)
      ensures IsBlank(old(aiPrompt)) ==> req == None && aiPrompt == old(aiPrompt) && isAiLoading == old(isAiLoading)
    {
      if Trim(aiPrompt) == "" {
        return None;
      }
      isAiLoading := true;
      var d := app.ActiveDoc().value;
      req := Some(Request(ContextWindow(d.content), aiPrompt, d.content, d.id));
    }

    /**
     * `handleAiAction` after its `await`: the suggestion is joined to the
     * captured content and written to the captured document; the instruction
     * is cleared and loading ends, whatever the outcome.
     */
    method CompleteAiAction(app: App, req: Request, outcome: Outcome, now: Timestamp)
      modifies this, app
      ensures app.Snapshot()
              == Workspace.UpdateContent(old(app.Snapshot()), req.target, AppendSuggestion(req.base, SuggestionText(outcome)), now)
      ensures forall i :: 0 <= i < |app.documents| && old(app.documents[i].id) == req.target ==>
                req.base < app.documents[i].content
      ensures aiPrompt == "" && !isAiLoading
    {
      var newContent := AppendSuggestion(req.base, SuggestionText(outcome));
      AppendedContentGrows(req.base, outcome);
      app.HandleUpdateContent(req.target, newContent, now);
      aiPrompt := "";
      isAiLoading := false;
    }

    /** A click on Sync AI, which does nothing while the button is disabled. */
    method ClickSync(app: App) returns (req: Option<Request>)
      requires app.ActiveDoc().Some?
      modifies this
      ensures old(isAiLoading) ==> req == None && aiPrompt == old(aiPrompt) && isAiLoading
      ensures var d := app.ActiveDoc().value;
              !old(isAiLoading) && Trim(old(aiPrompt)) != "" ==>
                && req == Some(Request(ContextWindow(d.content), old(aiPrompt), d.content, d.id))
                && isAiLoading && aiPrompt == old(aiPrompt)
      ensures IsBlank(old(aiPrompt)) ==> req == None && aiPrompt == old(aiPrompt) && isAiLoading == old(isAiLoading)
    {
      if !SyncEnabled() {
        return None;
      }
      req := HandleAiAction(app);
    }

    /** A key press in the instruction field; the shortcut runs the action even while loading. */
    method KeyDown(app: App, key: string, ctrlKey: bool, metaKey: bool) returns (req: Option<Request>)
      requires app.ActiveDoc().Some?
      modifies this
      ensures !IsSubmitShortcut(key, ctrlKey, metaKey) ==> req == None && aiPrompt == old(aiPrompt) && isAiLoading == old(isAiLoading)
      ensures var d := app.ActiveDoc().value;
              IsSubmitShortcut(key, ctrlKey, metaKey) && Trim(old(aiPrompt)) != "" ==>
                && req == Some(Request(ContextWindow(d.content), old(aiPrompt), d.content, d.id))
                && isAiLoading && aiPrompt == old(aiPrompt)
      ensures IsBlank(old(aiPrompt)) ==> req == None && aiPrompt == old(aiPrompt) && isAiLoading == old(isAiLoading)
    {
      if !IsSubmitShortcut(key, ctrlKey, metaKey) {
        return None;
      }
      req := HandleAiAction(app);
    }
  }
}
