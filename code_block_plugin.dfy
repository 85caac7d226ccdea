/**
 * The language toolbar's plugin view: the fields `state` and `blockPos`,
 * changed by clicks, scrolling, `editLanguage` and `closeMenu`, with every
 * change announced through `emitUpdate`; and the plugin around it, whose
 * key handler closes the toolbar on Escape.
 *
 * The DOM and the document are not modelled. A click carries its target's
 * ancestor chain; each element on it carries the position `posAtDOM` gives
 * for it and its bounding rectangle. Block lookups are an oracle, and
 * document writes are recorded as the `setNodeMarkup` requests dispatched.
 * The view also keeps, as model state, the updates it has emitted, the
 * requests it has dispatched and the listeners it has registered.
 */
module CodeBlockPlugin {
  import opened CodeBlockTypes

  const CodeLanguageClass: string := "code-language"
  const UninitializedMessage: string := "Attempting to update uninitialized code block toolbar"

  /** The toolbar's state: shown or not, where it is anchored, and the language it edits. */
  datatype CodeBlockState = CodeBlockState(show: bool, referencePos: Rect, language: AttrValue)

  /**
   * An element on a click target's ancestor chain: its classes, the
   * document position `posAtDOM(element, 0)` gives for it, and its bounding
   * rectangle.
   */
  datatype Element = Element(classes: set<string>, domPos: int, rect: Rect)

  /**
   * A click: the target followed by its ancestors, innermost first ([] when
   * the event has no target), and whether the target is the editor's
   * wrapper element or inside it.
   */
  datatype ClickEvent = ClickEvent(path: seq<Element>, inWrapper: bool)

  /** A `setNodeMarkup(pos, null, attrs)` transaction dispatched to the editor. */
  datatype Request = SetNodeMarkup(pos: int, attrs: Attrs)

  /** The capture listeners the view registers on the editor's root. */
  datatype Listener = ClickListener | ScrollListener

  /** The view's fields together with what it has emitted and dispatched so far. */
  datatype ToolbarSnapshot = ToolbarSnapshot(state: Option<CodeBlockState>, blockPos: Option<int>,
                                             updates: seq<CodeBlockState>, requests: seq<Request>)

  /** `state?.show`. */
  predicate ToolbarShown(s: ToolbarSnapshot)
  {
    s.state.Some? && s.state.value.show
  }

  /**
   * What the plugin's subscribers last received is the current state, and
   * nothing has been emitted while there is no state.
   */
  predicate Synced(s: ToolbarSnapshot)
  {
    && (s.state.None? ==> s.updates == [])
    && (s.updates != [] ==> s.state.Some? && s.updates[|s.updates| - 1] == s.state.value)
  }

  /** The first element of the chain, from the target outwards, that has class `cls`. */
  function FirstWithClass(path: seq<Element>, cls: string): (r: Option<nat>)
    ensures r.Some? ==>
      && r.value < |path|
      && cls in path[r.value].classes
      && forall k :: 0 <= k < r.value ==> cls !in path[k].classes
    ensures r.None? ==> forall k :: 0 <= k < |path| ==> cls !in path[k].classes
  {
    if path == [] then None
    else if cls in path[0].classes then Some(0)
    else match FirstWithClass(path[1..], cls)
      case None => None
      case Some(j) => Some(j + 1)
  }

  /**
   * The click handler's walk up the target's ancestors, stopping at the first
   * element with class `code-language`.
   */
  method FindCodeLanguageElement(path: seq<Element>) returns (found: Option<nat>)
    ensures found == FirstWithClass(path, CodeLanguageClass)
  {
    found := None;
    var i := 0;
    while i < |path|
      invariant 0 <= i <= |path|
      invariant found == None
      invariant forall k :: 0 <= k < i ==> CodeLanguageClass !in path[k].classes
    {
      if CodeLanguageClass in path[i].classes {
        found := Some(i);
        break;
      }
      i := i + 1;
    }
  }

  /** `{...attrs, lockSelector: false}`. */
  function Unlocked(attrs: Attrs): (r: Attrs)
    ensures Lookup(r, "lockSelector") == Flag(false)
    ensures forall k :: k != "lockSelector" ==> Lookup(r, k) == Lookup(attrs, k)
  {
    attrs["lockSelector" := Flag(false)]
  }

  /** `{...attrs, showSelector: false, lockSelector: false}`. */
  function Closed(attrs: Attrs): (r: Attrs)
    ensures Lookup(r, "showSelector") == Flag(false) && Lookup(r, "lockSelector") == Flag(false)
    ensures forall k :: k != "showSelector" && k != "lockSelector" ==> Lookup(r, k) == Lookup(attrs, k)
  {
    attrs["showSelector" := Flag(false)]["lockSelector" := Flag(false)]
  }

  /** `{...attrs, language}`. */
  function WithLanguage(attrs: Attrs, language: string): (r: Attrs)
    ensures Lookup(r, "language") == Str(language)
    ensures forall k :: k != "language" ==> Lookup(r, k) == Lookup(attrs, k)
  {
    attrs["language" := Str(language)]
  }

  /** The label clicked, when the click is one the handler acts on and it hit a label. */
  function ClickedLabel(ev: ClickEvent): Option<Element>
  {
    match FirstWithClass(ev.path, CodeLanguageClass)
    case None => None
    case Some(i) => Some(ev.path[i])
  }

  /**
   * A click. Ignored when the editor is not editable or the target is not
   * within the editor's wrapper. On a `code-language` label it remembers the
   * label's block and, if the toolbar was not shown and the block is found,
   * opens the toolbar there with the block's language, emitting once.
   * Anywhere else it asks that the previously clicked block (if any, and if
   * found) no longer be locked, keeping its other attributes.
   */
  function ClickStep(s: ToolbarSnapshot, editable: bool, ev: ClickEvent, lookup: BlockLookup): (r: ToolbarSnapshot)
    ensures !editable || ev.path == [] || !ev.inWrapper ==> r == s
    ensures !ToolbarShown(s) && ToolbarShown(r) ==> r.updates == s.updates + [r.state.value]
    ensures ToolbarShown(s) || !ToolbarShown(r) ==> r.updates == s.updates
    ensures ToolbarShown(r) && !ToolbarShown(s) ==>
      editable && ev.inWrapper && ClickedLabel(ev).Some? && lookup(ClickedLabel(ev).value.domPos).Some?
    ensures editable && ev.inWrapper && ClickedLabel(ev).Some? ==>
      && r.blockPos == Some(ClickedLabel(ev).value.domPos)
      && r.requests == s.requests
      && if !ToolbarShown(s) && lookup(ClickedLabel(ev).value.domPos).Some? then
           r.state == Some(CodeBlockState(true, ClickedLabel(ev).value.rect,
                                          Lookup(lookup(ClickedLabel(ev).value.domPos).value.contentAttrs, "language")))
         else
           r.state == s.state && r.updates == s.updates
    ensures editable && ev.path != [] && ev.inWrapper && ClickedLabel(ev).None? ==>
      && r.state == s.state && r.blockPos == s.blockPos && r.updates == s.updates
      && r.requests == s.requests +
           if s.blockPos.Some? && lookup(s.blockPos.value).Some? then
             [SetNodeMarkup(lookup(s.blockPos.value).value.startPos, Unlocked(lookup(s.blockPos.value).value.contentAttrs))]
           else []
    ensures Synced(s) ==> Synced(r)
  {
    if !editable || ev.path == [] || !ev.inWrapper then s
    else match ClickedLabel(ev)
      case Some(clicked) =>
        var info := lookup(clicked.domPos);
        if !ToolbarShown(s) && info.Some? then
          var st := CodeBlockState(true, clicked.rect, Lookup(info.value.contentAttrs, "language"));
          s.(state := Some(st), blockPos := Some(clicked.domPos), updates := s.updates + [st])
        else s.(blockPos := Some(clicked.domPos))
      case None =>
        if s.blockPos.Some? && lookup(s.blockPos.value).Some? then
          var info := lookup(s.blockPos.value).value;
          s.(requests := s.requests + [SetNodeMarkup(info.startPos, Unlocked(info.contentAttrs))])
        else s
  }

  /** Steps that can throw return their outcome with the snapshot after them. */
  datatype StepResult = StepResult(outcome: Outcome, after: ToolbarSnapshot)

  /**
   * Scrolling. Acts only while the toolbar is shown and a block is
   * remembered; the lookup of that block is dereferenced without a check, so
   * a missing block throws. When the block's label is found, only the
   * anchor rectangle changes and one update is emitted; otherwise nothing
   * happens.
   */
  function ScrollStep(s: ToolbarSnapshot, lookup: BlockLookup, labelRect: string -> Option<Rect>): (r: StepResult)
    ensures !ToolbarShown(s) || s.blockPos.None? ==> r == StepResult(Done, s)
    ensures r.outcome.Threw? <==> ToolbarShown(s) && s.blockPos.Some? && lookup(s.blockPos.value).None?
    ensures r.outcome.Threw? ==> r.after == s
    ensures r.after.blockPos == s.blockPos && r.after.requests == s.requests
    ensures r.after.updates == s.updates || (r.after.state.Some? && r.after.updates == s.updates + [r.after.state.value])
    ensures r.after.state != s.state ==>
      && s.state.Some? && s.blockPos.Some? && lookup(s.blockPos.value).Some?
      && labelRect(lookup(s.blockPos.value).value.id).Some?
      && r.after.state == Some(s.state.value.(referencePos := labelRect(lookup(s.blockPos.value).value.id).value))
      && r.after.updates == s.updates + [r.after.state.value]
    ensures ToolbarShown(s) && s.blockPos.Some? && lookup(s.blockPos.value).Some? ==>
      var id := lookup(s.blockPos.value).value.id;
      && r.outcome == Done
      && (labelRect(id).None? ==> r.after == s)
      && (labelRect(id).Some? ==>
            && r.after.state == Some(s.state.value.(referencePos := labelRect(id).value))
            && r.after.updates == s.updates + [r.after.state.value])
    ensures ToolbarShown(r.after) == ToolbarShown(s)
    ensures Synced(s) ==> Synced(r.after)
  {
    if !ToolbarShown(s) || s.blockPos.None? then StepResult(Done, s)
    else match lookup(s.blockPos.value)
      case None => StepResult(Threw("Cannot destructure the block info of an undefined block"), s)
      case Some(info) =>
        match labelRect(info.id)
        case None => StepResult(Done, s)
        case Some(rect) =>
          var st := s.state.value.(referencePos := rect);
          StepResult(Done, s.(state := Some(st), updates := s.updates + [st]))
  }

  /**
   * `editLanguage`. The block is looked up at the selection's anchor, not at
   * the remembered block, and the lookup is dereferenced without a check, so
   * a missing block throws before anything changes. Otherwise it requests
   * that the anchor's node get the new language, keeping its other
   * attributes, and then hides the toolbar and emits once if it was shown.
   */
  function EditLanguageStep(s: ToolbarSnapshot, language: string, anchor: int, anchorNodeAttrs: Attrs,
                            lookup: BlockLookup): (r: StepResult)
    ensures r.outcome.Threw? <==> lookup(anchor).None?
    ensures r.outcome.Threw? ==> r.after == s
    ensures r.outcome.Done? ==>
      && r.after.requests == s.requests + [SetNodeMarkup(lookup(anchor).value.startPos, WithLanguage(anchorNodeAttrs, language))]
      && r.after.blockPos == s.blockPos
      && !ToolbarShown(r.after)
      && (ToolbarShown(s) ==>
            r.after.state == Some(s.state.value.(show := false)) && r.after.updates == s.updates + [r.after.state.value])
      && (!ToolbarShown(s) ==> r.after.state == s.state && r.after.updates == s.updates)
    ensures Synced(s) ==> Synced(r.after)
  {
    match lookup(anchor)
    case None => StepResult(Threw("Cannot destructure the block info of an undefined block"), s)
    case Some(info) =>
      var s1 := s.(requests := s.requests + [SetNodeMarkup(info.startPos, WithLanguage(anchorNodeAttrs, language))]);
      if ToolbarShown(s) then
        var st := s.state.value.(show := false);
        StepResult(Done, s1.(state := Some(st), updates := s1.updates + [st]))
      else StepResult(Done, s1)
  }

  /**
   * `closeMenu`. A no-op unless the toolbar is shown. Then it asks that the
   * remembered block (if any, and if found) neither show nor lock its
   * selector, keeping its other attributes, hides the toolbar and emits once.
   */
  function CloseMenuStep(s: ToolbarSnapshot, lookup: BlockLookup): (r: ToolbarSnapshot)
    ensures !ToolbarShown(s) ==> r == s
    ensures !ToolbarShown(r)
    ensures r.blockPos == s.blockPos
    ensures ToolbarShown(s) ==>
      && r.state == Some(s.state.value.(show := false))
      && r.updates == s.updates + [r.state.value]
      && r.requests == s.requests +
           if s.blockPos.Some? && lookup(s.blockPos.value).Some? then
             [SetNodeMarkup(lookup(s.blockPos.value).value.startPos, Closed(lookup(s.blockPos.value).value.contentAttrs))]
           else []
    ensures Synced(s) ==> Synced(r)
  {
    if !ToolbarShown(s) then s
    else
      var s1 :=
        if s.blockPos.Some? && lookup(s.blockPos.value).Some? then
          var info := lookup(s.blockPos.value).value;
          s.(requests := s.requests + [SetNodeMarkup(info.startPos, Closed(info.contentAttrs))])
        else s;
      var st := s.state.value.(show := false);
      s1.(state := Some(st), updates := s1.updates + [st])
  }

  /** Closing twice is closing once. */
  lemma CloseMenuIdempotent(s: ToolbarSnapshot, lookup: BlockLookup)
    ensures CloseMenuStep(CloseMenuStep(s, lookup), lookup) == CloseMenuStep(s, lookup)
  {
  }

  /** Only a click on a label opens the toolbar: no other step shows a hidden toolbar. */
  lemma OnlyLabelClicksOpen(s: ToolbarSnapshot, lookup: BlockLookup, labelRect: string -> Option<Rect>,
                            language: string, anchor: int, attrs: Attrs)
    requires !ToolbarShown(s)
    ensures !ToolbarShown(ScrollStep(s, lookup, labelRect).after)
    ensures !ToolbarShown(EditLanguageStep(s, language, anchor, attrs, lookup).after)
    ensures !ToolbarShown(CloseMenuStep(s, lookup))
  {
  }

  /**
   * A label click while the toolbar is shown leaves the toolbar as it is,
   * even on another block's label; only the remembered block changes.
   */
  lemma ShownToolbarIgnoresLabelClicks(s: ToolbarSnapshot, ev: ClickEvent, lookup: BlockLookup)
    requires ToolbarShown(s) && ev.inWrapper && ClickedLabel(ev).Some?
    ensures ClickStep(s, true, ev, lookup) == s.(blockPos := Some(ClickedLabel(ev).value.domPos))
  {
  }

  /** The plugin view. */
  class CodeBlockToolbarView {
    var state: Option<CodeBlockState>
    var blockPos: Option<int>
    /** The states passed to the plugin's `update` event, in order. */
    var updates: seq<CodeBlockState>
    /** The `setNodeMarkup` transactions dispatched, in order. */
    var requests: seq<Request>
    /** The capture listeners registered on the editor's root. */
    var listeners: set<Listener>

    function Snapshot(): ToolbarSnapshot
      reads this
    {
      ToolbarSnapshot(state, blockPos, updates, requests)
    }

    ghost predicate Valid()
      reads this
    {
      Synced(Snapshot())
    }

    /** Registers the click and the scroll listener; no state yet. */
    constructor ()
      ensures Valid()
      ensures state == None && blockPos == None && updates == [] && requests == []
      ensures listeners == {ClickListener, ScrollListener}
    {
      state := None;
      blockPos := None;
      updates := [];
      requests := [];
      listeners := {ClickListener, ScrollListener};
    }

    /** Emits the current state; throws when there is none. */
    method EmitUpdate() returns (outcome: Outcome)
      modifies this
      ensures state == old(state) && blockPos == old(blockPos) && requests == old(requests)
      ensures listeners == old(listeners)
      ensures outcome.Threw? <==> state.None?
      ensures outcome.Done? ==> state.Some? && updates == old(updates) + [state.value] && Valid()
      ensures outcome.Threw? ==> updates == old(updates)
    {
      if state.None? {
        return Threw(UninitializedMessage);
      }
      updates := updates + [state.value];
      outcome := Done;
    }

    method ClickHandler(editable: bool, ev: ClickEvent, lookup: BlockLookup)
      requires Valid()
      modifies this
      ensures Valid()
      ensures Snapshot() == ClickStep(old(Snapshot()), editable, ev, lookup)
      ensures listeners == old(listeners)
    {
      if !editable {
        return;
      }
      var beforeBlockPos := blockPos;
      if ev.path != [] && ev.inWrapper {
        var found := FindCodeLanguageElement(ev.path);
        if found.Some? {
          var parent := ev.path[found.value];
          blockPos := Some(parent.domPos);
          var blockInfo := lookup(parent.domPos);
          if !(state.Some? && state.value.show) && blockInfo.Some? {
            state := Some(CodeBlockState(true, parent.rect, Lookup(blockInfo.value.contentAttrs, "language")));
            var _ := EmitUpdate();
          }
        } else if beforeBlockPos.Some? {
          var blockInfo := lookup(beforeBlockPos.value);
          if blockInfo.Some? {
            var info := blockInfo.value;
            requests := requests + [SetNodeMarkup(info.startPos, Unlocked(info.contentAttrs))];
          }
        }
      }
    }

    method ScrollHandler(lookup: BlockLookup, labelRect: string -> Option<Rect>) returns (outcome: Outcome)
      requires Valid()
      modifies this
      ensures Valid()
      ensures StepResult(outcome, Snapshot()) == ScrollStep(old(Snapshot()), lookup, labelRect)
      ensures listeners == old(listeners)
    {
      outcome := Done;
      if state.Some? && state.value.show && blockPos.Some? {
        var blockInfo := lookup(blockPos.value);
        if blockInfo.None? {
          return Threw("Cannot destructure the block info of an undefined block");
        }
        var codeLanguageElement := labelRect(blockInfo.value.id);
        if codeLanguageElement.None? {
          return;
        }
        state := Some(state.value.(referencePos := codeLanguageElement.value));
        outcome := EmitUpdate();
      }
    }

    method EditLanguage(language: string, anchor: int, anchorNodeAttrs: Attrs, lookup: BlockLookup)
      returns (outcome: Outcome)
      requires Valid()
      modifies this
      ensures Valid()
      ensures StepResult(outcome, Snapshot()) == EditLanguageStep(old(Snapshot()), language, anchor, anchorNodeAttrs, lookup)
      ensures listeners == old(listeners)
    {
      var blockInfo := lookup(anchor);
      if blockInfo.None? {
        return Threw("Cannot destructure the block info of an undefined block");
      }
      requests := requests + [SetNodeMarkup(blockInfo.value.startPos, WithLanguage(anchorNodeAttrs, language))];
      outcome := Done;
      if state.Some? && state.value.show {
        state := Some(state.value.(show := false));
        outcome := EmitUpdate();
      }
    }

    method CloseMenu(lookup: BlockLookup)
      requires Valid()
      modifies this
      ensures Valid()
      ensures Snapshot() == CloseMenuStep(old(Snapshot()), lookup)
      ensures listeners == old(listeners)
    {
      if state.Some? && state.value.show {
        if blockPos.Some? {
          var blockInfo := lookup(blockPos.value);
          if blockInfo.Some? {
            var info := blockInfo.value;
            requests := requests + [SetNodeMarkup(info.startPos, Closed(info.contentAttrs))];
          }
        }
        state := Some(state.value.(show := false));
        var _ := EmitUpdate();
      }
    }

    /** Removes exactly the two listeners the constructor registered. */
    method Destroy()
      modifies this
      ensures listeners == old(listeners) - {ClickListener, ScrollListener}
      ensures Snapshot() == old(Snapshot())
    {
      listeners := listeners - {ScrollListener};
      listeners := listeners - {ClickListener};
    }
  }

  /** The plugin: it creates the view and forwards Escape, `editLanguage` and `closeMenu` to it. */
  class CodeBlockToolbarPlugin {
    var view: CodeBlockToolbarView?

    constructor ()
      ensures view == null
    {
      view := null;
    }

    /** The plugin's `view` callback: a new view, which the plugin keeps. */
    method CreateView() returns (v: CodeBlockToolbarView)
      modifies this
      ensures fresh(v) && view == v && v.Valid()
      ensures v.Snapshot() == ToolbarSnapshot(None, None, [], []) && v.listeners == {ClickListener, ScrollListener}
    {
      v := new CodeBlockToolbarView();
      view := v;
    }

    /** `shown`: false when there is no view or no state. */
    function Shown(): (shown: bool)
      reads this, view
      ensures shown <==> view != null && ToolbarShown(view.Snapshot())
    {
      view != null && view.state.Some? && view.state.value.show
    }

    /** Escape closes the toolbar and is handled exactly when it is shown; any other key is not handled. */
    method HandleKeyDown(key: string, lookup: BlockLookup) returns (handled: bool)
      requires view != null ==> view.Valid()
      modifies view
      ensures handled <==> key == "Escape" && old(Shown())
      ensures handled ==> view.Valid() && view.Snapshot() == CloseMenuStep(old(view.Snapshot()), lookup) && !Shown()
      ensures !handled && view != null ==> view.Snapshot() == old(view.Snapshot())
      ensures view != null ==> view.listeners == old(view.listeners)
    {
      if key == "Escape" && Shown() {
        view.CloseMenu(lookup);
        return true;
      }
      return false;
    }

    /** Forwards to the view; with no view the call throws. */
    method EditLanguage(language: string, anchor: int, anchorNodeAttrs: Attrs, lookup: BlockLookup)
      returns (outcome: Outcome)
      requires view != null ==> view.Valid()
      modifies view
      ensures view == null ==> outcome.Threw?
      ensures view != null ==> view.Valid()
      ensures view != null ==>
        StepResult(outcome, view.Snapshot()) == EditLanguageStep(old(view.Snapshot()), language, anchor, anchorNodeAttrs, lookup)
      ensures view != null ==> view.listeners == old(view.listeners)
    {
      if view == null {
        return Threw("Cannot read properties of undefined (reading 'editLanguage')");
      }
      outcome := view.EditLanguage(language, anchor, anchorNodeAttrs, lookup);
    }

    /** Forwards to the view; with no view the call throws. */
    method CloseMenu(lookup: BlockLookup) returns (outcome: Outcome)
      requires view != null ==> view.Valid()
      modifies view
      ensures outcome.Threw? <==> view == null
      ensures view != null ==> view.Valid() && view.Snapshot() == CloseMenuStep(old(view.Snapshot()), lookup)
      ensures view != null ==> view.listeners == old(view.listeners)
    {
      if view == null {
        return Threw("Cannot read properties of undefined (reading 'closeMenu')");
      }
      view.CloseMenu(lookup);
      outcome := Done;
    }
  }
}
