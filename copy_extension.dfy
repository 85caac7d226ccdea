/**
 * The copy/cut/drag extension: which part of the selection is exported, with
 * which `simplifyBlocks` flag, and which clipboard slots are written.
 *
 * The document, ProseMirror's serialiser, the HTML and Markdown exporters and
 * `textBetween` are not modelled: a `Host` value supplies their answers. A
 * selection carries the two fragments the extension reads from it: its
 * content (`selection.content().content`) and the same range sliced without
 * its parents (`doc.slice(from, to, false).content`).
 */
module CopyExtension {
  import opened CodeBlockTypes

  // ---------------------------------------------------------------------
  // findChildNodesOfType
  // ---------------------------------------------------------------------

  /**
   * The nodes of a fragment, at any depth, whose type is `name`, in
   * pre-order: a node before its descendants, siblings left to right.
   */
  function NodesOfType(fragment: seq<Node>, name: string): (r: seq<Node>)
    ensures forall x :: x in r ==> x.typeName == name
    ensures fragment == [] ==> r == []
    decreases fragment
  {
    if fragment == [] then []
    else NodesOfType(fragment[..|fragment| - 1], name) + NodesOfTypeIn(fragment[|fragment| - 1], name)
  }

  /** A node itself when it has the type, followed by its matching descendants. */
  function NodesOfTypeIn(node: Node, name: string): (r: seq<Node>)
    ensures forall x :: x in r ==> x.typeName == name
    decreases node
  {
    (if node.typeName == name then [node] else []) + NodesOfType(node.children, name)
  }

  /**
   * `findChildNodesOfType`: walks the fragment's children in order, pushing
   * each child whose type matches and then, when the child has content, the
   * result of the same walk over that content.
   */
  method FindChildNodesOfType(fragment: seq<Node>, nodeTypeName: string) returns (nodes: seq<Node>)
    ensures nodes == NodesOfType(fragment, nodeTypeName)
    decreases fragment
  {
    nodes := [];
    for i := 0 to |fragment|
      invariant nodes == NodesOfType(fragment[..i], nodeTypeName)
    {
      var node := fragment[i];
      if node.typeName == nodeTypeName {
        nodes := nodes + [node];
      }
      if |node.children| > 0 {
        var inner := FindChildNodesOfType(node.children, nodeTypeName);
        nodes := nodes + inner;
      }
      assert fragment[..i + 1][..i] == fragment[..i];
    }
    assert fragment[..|fragment|] == fragment;
  }

  /** Every node of a fragment, at any depth, in pre-order. */
  function PreOrder(fragment: seq<Node>): seq<Node>
    decreases fragment
  {
    if fragment == [] then []
    else PreOrder(fragment[..|fragment| - 1]) + PreOrderOf(fragment[|fragment| - 1])
  }

  function PreOrderOf(node: Node): seq<Node>
    decreases node
  {
    [node] + PreOrder(node.children)
  }

  /** The elements of `s` whose type is `name`, in order. */
  function OfType(s: seq<Node>, name: string): seq<Node>
  {
    if s == [] then [] else OfType(s[..|s| - 1], name) + (if s[|s| - 1].typeName == name then [s[|s| - 1]] else [])
  }

  lemma {:induction false} OfTypeAppend(a: seq<Node>, b: seq<Node>, name: string)
    ensures OfType(a + b, name) == OfType(a, name) + OfType(b, name)
    decreases |b|
  {
    if b != [] {
      var last := b[|b| - 1];
      var tail := if last.typeName == name then [last] else [];
      assert (a + b)[..|a + b| - 1] == a + b[..|b| - 1];
      assert (a + b)[|a + b| - 1] == last;
      OfTypeAppend(a, b[..|b| - 1], name);
      calc {
        OfType(a + b, name);
        OfType(a + b[..|b| - 1], name) + tail;
        OfType(a, name) + OfType(b[..|b| - 1], name) + tail;
        OfType(a, name) + OfType(b, name);
      }
    } else {
      assert a + b == a;
    }
  }

  /**
   * The collected nodes are the full pre-order traversal filtered by type:
   * the collection visits every node once, in pre-order, and keeps exactly
   * those of the requested type.
   */
  lemma {:induction false} NodesOfTypeIsFilteredPreOrder(fragment: seq<Node>, name: string)
    ensures NodesOfType(fragment, name) == OfType(PreOrder(fragment), name)
    decreases fragment
  {
    if fragment != [] {
      var init, last := fragment[..|fragment| - 1], fragment[|fragment| - 1];
      NodesOfTypeIsFilteredPreOrder(init, name);
      NodesOfTypeInIsFilteredPreOrder(last, name);
      OfTypeAppend(PreOrder(init), PreOrderOf(last), name);
    }
  }

  lemma {:induction false} NodesOfTypeInIsFilteredPreOrder(node: Node, name: string)
    ensures NodesOfTypeIn(node, name) == OfType(PreOrderOf(node), name)
    decreases node
  {
    NodesOfTypeIsFilteredPreOrder(node.children, name);
    OfTypeAppend([node], PreOrder(node.children), name);
    assert OfType([node], name) == (if node.typeName == name then [node] else []) by {
      assert [node][..0] == [];
    }
  }

  /** `x` is a node of the fragment at some depth. */
  predicate Occurs(x: Node, fragment: seq<Node>)
    decreases fragment
  {
    exists i :: 0 <= i < |fragment| && (fragment[i] == x || Occurs(x, fragment[i].children))
  }

  /** A node occurs in a non-empty fragment iff it occurs before the last child, is it, or is inside it. */
  lemma OccursInLast(x: Node, fragment: seq<Node>)
    requires fragment != []
    ensures Occurs(x, fragment) <==>
      || Occurs(x, fragment[..|fragment| - 1])
      || x == fragment[|fragment| - 1]
      || Occurs(x, fragment[|fragment| - 1].children)
  {
  }

  lemma {:induction false} PreOrderHoldsEveryNode(x: Node, fragment: seq<Node>)
    ensures x in PreOrder(fragment) <==> Occurs(x, fragment)
    decreases fragment
  {
    if fragment != [] {
      var init, last := fragment[..|fragment| - 1], fragment[|fragment| - 1];
      PreOrderHoldsEveryNode(x, init);
      PreOrderHoldsEveryNode(x, last.children);
      OccursInLast(x, fragment);
      assert PreOrder(fragment) == PreOrder(init) + ([last] + PreOrder(last.children));
    }
  }

  lemma {:induction false} OfTypeMembers(x: Node, s: seq<Node>, name: string)
    ensures x in OfType(s, name) <==> x in s && x.typeName == name
  {
    if s != [] {
      OfTypeMembers(x, s[..|s| - 1], name);
      assert s == s[..|s| - 1] + [s[|s| - 1]];
    }
  }

  /**
   * `findChildNodesOfType` returns exactly the nodes, at any depth, whose
   * type name is the requested one.
   */
  lemma NodesOfTypeExact(x: Node, fragment: seq<Node>, name: string)
    ensures x in NodesOfType(fragment, name) <==> Occurs(x, fragment) && x.typeName == name
  {
    NodesOfTypeIsFilteredPreOrder(fragment, name);
    OfTypeMembers(x, PreOrder(fragment), name);
    PreOrderHoldsEveryNode(x, fragment);
  }

  // ---------------------------------------------------------------------
  // Choosing the exported fragment
  // ---------------------------------------------------------------------

  datatype SelectionKind = TextSelection | NodeSelection(node: Node) | CellSelection

  /**
   * A selection, with the two fragments the extension reads from it: its
   * content and the same range sliced without its parents.
   */
  datatype Selection = Selection(kind: SelectionKind, from: int, to: int,
                                 content: seq<Node>, withoutParents: seq<Node>)

  /** A top-level node that brings block structure with it. */
  predicate IsBlockStructure(n: Node)
  {
    n.typeName == "blockContainer" || n.typeName == "blockGroup" || n.group == "blockContent"
  }

  /** The fragment handed to the external-HTML exporter, and the three flags. */
  datatype ExportChoice = ExportChoice(fragment: seq<Node>, withinBlockContent: bool,
                                       withinCodeBlock: bool, withinTable: bool)
  {
    /** The exporter simplifies blocks only when none of the three cases applies. */
    predicate SimplifyBlocks() { !withinCodeBlock && !withinBlockContent && !withinTable }
  }

  /**
   * The choice `selectedFragmentToHTML` makes. A cell selection keeps the
   * selection's content and applies neither override. Otherwise the selection
   * is within block content when no top-level node of the parentless slice
   * brings block structure, and then that slice is exported; and when the
   * content holds any code block, exactly those code blocks are exported,
   * overriding the previous choice.
   */
  function ExportChoiceFor(sel: Selection): (c: ExportChoice)
    ensures c.withinTable <==> sel.kind.CellSelection?
    ensures c.withinTable ==> !c.withinBlockContent && !c.withinCodeBlock && c.fragment == sel.content
    ensures !c.withinTable ==>
      (c.withinBlockContent <==> forall i :: 0 <= i < |sel.withoutParents| ==> !IsBlockStructure(sel.withoutParents[i]))
    ensures !c.withinTable ==> (c.withinCodeBlock <==> NodesOfType(sel.content, CodeBlockType) != [])
    ensures c.withinCodeBlock ==>
      c.fragment == NodesOfType(sel.content, CodeBlockType)
      && forall n :: n in c.fragment ==> n.typeName == CodeBlockType
    ensures !c.withinCodeBlock && c.withinBlockContent ==> c.fragment == sel.withoutParents
    ensures !c.withinCodeBlock && !c.withinBlockContent ==> c.fragment == sel.content
    ensures c.SimplifyBlocks() ==>
      && !sel.kind.CellSelection?
      && NodesOfType(sel.content, CodeBlockType) == []
      && exists i :: 0 <= i < |sel.withoutParents| && IsBlockStructure(sel.withoutParents[i])
  {
    if sel.kind.CellSelection? then ExportChoice(sel.content, false, false, true)
    else
      var withinBlockContent := forall i :: 0 <= i < |sel.withoutParents| ==> !IsBlockStructure(sel.withoutParents[i]);
      var codeBlocks := NodesOfType(sel.content, CodeBlockType);
      var fragment := if codeBlocks != [] then codeBlocks
                      else if withinBlockContent then sel.withoutParents
                      else sel.content;
      ExportChoice(fragment, withinBlockContent, codeBlocks != [], false)
  }

  /**
   * The same choice, made step by step as `selectedFragmentToHTML` does: collect the code
   * blocks, copy the slice's children, search them for block structure, and
   * reassign the fragment and the flags.
   */
  method ChooseExportFragment(sel: Selection) returns (choice: ExportChoice)
    ensures choice == ExportChoiceFor(sel)
  {
    var selectedFragment := sel.content;
    var isWithinBlockContent := false;
    var isWithinCodeBlock := false;
    var isWithinTable := sel.kind.CellSelection?;
    if !isWithinTable {
      var fragmentWithoutParents := sel.withoutParents;
      var codeBlocks := FindChildNodesOfType(selectedFragment, CodeBlockType);

      var children: seq<Node> := [];
      for i := 0 to |fragmentWithoutParents|
        invariant children == fragmentWithoutParents[..i]
      {
        children := children + [fragmentWithoutParents[i]];
      }

      var j := 0;
      while j < |children| && !IsBlockStructure(children[j])
        invariant 0 <= j <= |children|
        invariant forall k :: 0 <= k < j ==> !IsBlockStructure(children[k])
      {
        j := j + 1;
      }
      isWithinBlockContent := j == |children|;
      if isWithinBlockContent {
        selectedFragment := fragmentWithoutParents;
      }

      if |codeBlocks| > 0 {
        isWithinCodeBlock := true;
        selectedFragment := codeBlocks;
      }
    }
    choice := ExportChoice(selectedFragment, isWithinBlockContent, isWithinCodeBlock, isWithinTable);
  }

  // ---------------------------------------------------------------------
  // Copy, cut and drag start
  // ---------------------------------------------------------------------

  /**
   * The answers of the code the extension calls: the selection a
   * NodeSelection at a position yields, ProseMirror's clipboard serialiser,
   * the external-HTML exporter, the HTML-to-Markdown pass, `textBetween`
   * with "\n" as block separator, the selection left once `deleteSelection`
   * has been applied, and whether the one-time dependency initialisation
   * succeeds.
   */
  datatype Host = Host(
    nodeSelectionAt: int -> Selection,
    serializeForClipboard: seq<Node> -> string,
    exportHTML: (seq<Node>, bool) -> string,
    htmlToMarkdown: string -> string,
    textBetween: seq<Node> -> string,
    afterDeleteSelection: Selection -> Selection,
    dependenciesLoad: bool)

  /** The transactions the extension dispatches. */
  datatype Transaction = SetNodeSelection(pos: int) | DeleteSelection

  /** The selection once a transaction has been applied. */
  function Apply(host: Host, sel: Selection, tr: Transaction): Selection
  {
    match tr
    case SetNodeSelection(pos) => host.nodeSelectionAt(pos)
    case DeleteSelection => host.afterDeleteSelection(sel)
  }

  /** The editor view: its current selection and the transactions dispatched to it. */
  class EditorView {
    var selection: Selection
    var dispatched: seq<Transaction>

    constructor (selection: Selection)
      ensures this.selection == selection && dispatched == []
    {
      this.selection := selection;
      dispatched := [];
    }

    method Dispatch(host: Host, tr: Transaction)
      modifies this
      ensures dispatched == old(dispatched) + [tr]
      ensures selection == Apply(host, old(selection), tr)
    {
      dispatched := dispatched + [tr];
      selection := Apply(host, selection, tr);
    }
  }

  /** A clipboard or drag data object: named slots, and whether the default action was prevented. */
  class DataTransfer {
    var slots: map<string, string>
    var defaultPrevented: bool

    constructor (slots: map<string, string>)
      ensures this.slots == slots && !defaultPrevented
    {
      this.slots := slots;
      defaultPrevented := false;
    }

    method PreventDefault()
      modifies this
      ensures defaultPrevented && slots == old(slots)
    {
      defaultPrevented := true;
    }

    method ClearData()
      modifies this
      ensures slots == map[] && defaultPrevented == old(defaultPrevented)
    {
      slots := map[];
    }

    method SetData(key: string, value: string)
      modifies this
      ensures slots == old(slots)[key := value] && defaultPrevented == old(defaultPrevented)
    {
      slots := slots[key := value];
    }
  }

  /** The four representations of a selection. */
  datatype ClipboardOutput = ClipboardOutput(clipboardHTML: string, externalHTML: string, markdown: string, text: string)

  /** A NodeSelection of a `blockContent` node, which the extension widens to its block. */
  predicate SelectsBlockContent(sel: Selection)
  {
    sel.kind.NodeSelection? && sel.kind.node.group == "blockContent"
  }

  /** The widening: a NodeSelection of the enclosing block, one position earlier. */
  function Widen(host: Host, sel: Selection): Selection
  {
    if SelectsBlockContent(sel) then host.nodeSelectionAt(sel.from - 1) else sel
  }

  function WideningSteps(sel: Selection): seq<Transaction>
  {
    if SelectsBlockContent(sel) then [SetNodeSelection(sel.from - 1)] else []
  }

  /** What the export computes before its first `await`: the native HTML and the export choice. */
  datatype PendingExport = PendingExport(clipboardHTML: string, choice: ExportChoice)

  function PendingFor(host: Host, sel: Selection): PendingExport
  {
    PendingExport(host.serializeForClipboard(sel.content), ExportChoiceFor(sel))
  }

  /**
   * The four representations, given what was computed before the `await`
   * and the selection current when the export resumes: the external HTML
   * of the chosen fragment, its Markdown, and the text of the selection
   * current at that point. None when the dependencies fail to load.
   */
  function OutputFor(host: Host, pending: PendingExport, resumed: Selection): (out: Option<ClipboardOutput>)
    ensures out.Some? <==> host.dependenciesLoad
    ensures out.Some? ==>
      && out.value.clipboardHTML == pending.clipboardHTML
      && out.value.externalHTML == host.exportHTML(pending.choice.fragment, pending.choice.SimplifyBlocks())
      && out.value.markdown == host.htmlToMarkdown(out.value.externalHTML)
      && out.value.text == host.textBetween(resumed.content)
  {
    if !host.dependenciesLoad then None
    else
      var externalHTML := host.exportHTML(pending.choice.fragment, pending.choice.SimplifyBlocks());
      Some(ClipboardOutput(pending.clipboardHTML, externalHTML, host.htmlToMarkdown(externalHTML),
                           host.textBetween(resumed.content)))
  }

  /** The slots a completed export writes into a cleared data object: exactly four. */
  function Slots(out: ClipboardOutput): (m: map<string, string>)
    ensures m.Keys == {"blocknote/html", "text/html", "text/markdown", "text/plain"}
    ensures m["blocknote/html"] == out.clipboardHTML && m["text/html"] == out.externalHTML
    ensures m["text/markdown"] == out.markdown && m["text/plain"] == out.text
  {
    map["blocknote/html" := out.clipboardHTML]["text/html" := out.externalHTML]
       ["text/markdown" := out.markdown]["text/plain" := out.text]
  }

  /** The slots left after clearing and then (maybe) writing. */
  function SlotsAfter(out: Option<ClipboardOutput>): map<string, string>
  {
    if out.Some? then Slots(out.value) else map[]
  }

  /**
   * `selectedFragmentToHTML` up to its `await`: widen a selected
   * `blockContent` node to its block, serialise the selection natively, and
   * choose the exported fragment.
   */
  method BeginExport(view: EditorView, host: Host) returns (pending: PendingExport)
    modifies view
    ensures view.dispatched == old(view.dispatched) + WideningSteps(old(view.selection))
    ensures view.selection == Widen(host, old(view.selection))
    ensures pending == PendingFor(host, view.selection)
  {
    if SelectsBlockContent(view.selection) {
      view.Dispatch(host, SetNodeSelection(view.selection.from - 1));
    }
    var clipboardHTML := host.serializeForClipboard(view.selection.content);
    var choice := ChooseExportFragment(view.selection);
    pending := PendingExport(clipboardHTML, choice);
  }

  /** `selectedFragmentToHTML` after its `await`. */
  method FinishExport(view: EditorView, host: Host, pending: PendingExport) returns (out: Option<ClipboardOutput>)
    ensures out == OutputFor(host, pending, view.selection)
  {
    if !host.dependenciesLoad {
      return None;
    }
    var externalHTML := host.exportHTML(pending.choice.fragment, pending.choice.SimplifyBlocks());
    var markdown := host.htmlToMarkdown(externalHTML);
    var text := host.textBetween(view.selection.content);
    out := Some(ClipboardOutput(pending.clipboardHTML, externalHTML, markdown, text));
  }

  /** Writes the four slots, one by one, when the export completed. */
  method WriteSlots(data: DataTransfer, out: Option<ClipboardOutput>)
    requires data.slots == map[]
    modifies data
    ensures data.slots == SlotsAfter(out) && data.defaultPrevented == old(data.defaultPrevented)
  {
    if out.Some? {
      data.SetData("blocknote/html", out.value.clipboardHTML);
      data.SetData("text/html", out.value.externalHTML);
      data.SetData("text/markdown", out.value.markdown);
      data.SetData("text/plain", out.value.text);
    }
  }

  /**
   * The copy handler: prevents the default, clears the data, exports the
   * (widened) selection and writes the four slots; it always returns true.
   */
  method Copy(view: EditorView, data: DataTransfer, host: Host) returns (handled: bool)
    modifies view, data
    ensures handled && data.defaultPrevented
    ensures view.dispatched == old(view.dispatched) + WideningSteps(old(view.selection))
    ensures view.selection == Widen(host, old(view.selection))
    ensures data.slots == SlotsAfter(OutputFor(host, PendingFor(host, view.selection), view.selection))
  {
    data.PreventDefault();
    data.ClearData();
    var pending := BeginExport(view, host);
    var out := FinishExport(view, host, pending);
    WriteSlots(data, out);
    handled := true;
  }

  /**
   * The cut handler as written: the copy handler's synchronous part, then
   * the deletion, and only then the rest of the export, so the plain text is
   * taken from the selection left by the deletion.
   */
  method Cut(view: EditorView, data: DataTransfer, host: Host) returns (handled: bool)
    modifies view, data
    ensures handled && data.defaultPrevented
    ensures view.dispatched == old(view.dispatched) + WideningSteps(old(view.selection)) + [DeleteSelection]
    ensures var widened := Widen(host, old(view.selection));
      && view.selection == host.afterDeleteSelection(widened)
      && data.slots == SlotsAfter(OutputFor(host, PendingFor(host, widened), view.selection))
  {
    data.PreventDefault();
    data.ClearData();
    var pending := BeginExport(view, host);
    ghost var widened := view.selection;
    view.Dispatch(host, DeleteSelection);
    var out := FinishExport(view, host, pending);
    WriteSlots(data, out);
    handled := true;
  }

  /**
   * A host whose deletion leaves a collapsed selection (empty content) and
   * whose `textBetween` is non-empty exactly on non-empty content: cutting a
   * selection whose text is "x" writes "" to "text/plain".
   */
  lemma CutLosesPlainText(host: Host, sel: Selection)
    requires host.dependenciesLoad
    requires !SelectsBlockContent(sel) && sel.content != []
    requires host.afterDeleteSelection(sel).content == []
    requires host.textBetween([]) == "" && host.textBetween(sel.content) == "x"
    ensures var cut := SlotsAfter(OutputFor(host, PendingFor(host, sel), host.afterDeleteSelection(sel)));
      cut["text/plain"] == "" != host.textBetween(sel.content)
  {
  }

  /**
   * Cut with the plain text taken before the deletion: the slots are exactly
   * those a copy of the same selection writes.
   */
  method CutCorrected(view: EditorView, data: DataTransfer, host: Host) returns (handled: bool)
    modifies view, data
    ensures handled && data.defaultPrevented
    ensures view.dispatched == old(view.dispatched) + WideningSteps(old(view.selection)) + [DeleteSelection]
    ensures var widened := Widen(host, old(view.selection));
      && view.selection == host.afterDeleteSelection(widened)
      && data.slots == SlotsAfter(OutputFor(host, PendingFor(host, widened), widened))
    ensures host.dependenciesLoad ==>
      data.slots["text/plain"] == host.textBetween(Widen(host, old(view.selection)).content)
  {
    data.PreventDefault();
    data.ClearData();
    var pending := BeginExport(view, host);
    var out := FinishExport(view, host, pending);
    view.Dispatch(host, DeleteSelection);
    WriteSlots(data, out);
    handled := true;
  }

  /**
   * The drag-start handler: does nothing unless a `blockContent` node is
   * selected. Then it widens the selection to the block, prevents the
   * default, clears the data and exports as copy does (the export checks the
   * widened selection once more).
   */
  method DragStart(view: EditorView, data: DataTransfer, host: Host) returns (handled: bool)
    modifies view, data
    ensures !SelectsBlockContent(old(view.selection)) ==>
      !handled && view.selection == old(view.selection) && view.dispatched == old(view.dispatched)
      && data.slots == old(data.slots) && data.defaultPrevented == old(data.defaultPrevented)
    ensures SelectsBlockContent(old(view.selection)) ==>
      var widened := host.nodeSelectionAt(old(view.selection).from - 1);
      && handled && data.defaultPrevented
      && view.dispatched == old(view.dispatched) + [SetNodeSelection(old(view.selection).from - 1)]
                            + WideningSteps(widened)
      && view.selection == Widen(host, widened)
      && data.slots == SlotsAfter(OutputFor(host, PendingFor(host, view.selection), view.selection))
  {
    if !SelectsBlockContent(view.selection) {
      return false;
    }
    view.Dispatch(host, SetNodeSelection(view.selection.from - 1));
    data.PreventDefault();
    data.ClearData();
    var pending := BeginExport(view, host);
    var out := FinishExport(view, host, pending);
    WriteSlots(data, out);
    handled := true;
  }
}
