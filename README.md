# BlockNote code blocks, modelled in Dafny

This project models the code-block support of the BlockNote block editor:

- the `codeBlock` node: its keyboard shortcuts (Tab, Delete, Mod-a,
  Backspace, Enter, ArrowDown), the backtick input rule that turns "```js "
  into a JavaScript block, the `language` attribute's HTML parse and render
  rules, and the paste handler that turns a paste from VS Code into a code
  block with normalised line endings (module `CodeBlockContent`);
- the copy/cut/drag-start extension: collecting nested code blocks, choosing
  which fragment the external-HTML exporter sees and with which
  `simplifyBlocks` flag, and the four clipboard slots written
  (module `CopyExtension`);
- the language toolbar's plugin view, a small state machine over the fields
  `state` and `blockPos`, driven by clicks, scrolling, `editLanguage`,
  `closeMenu` and Escape, which announces every change (module
  `CodeBlockPlugin`);
- the language picker component: the search filter over the language list,
  committing with Enter, and each item's `aria-selected` and `tabIndex`
  (module `CodeBlockToolbar`).

Shared value types live in `CodeBlockTypes`. ProseMirror, Tiptap, the DOM
and the exporters are not modelled. Their answers are inputs to the
operations:

- a block lookup `int -> Option<BlockInfo>` stands for
  `getBlockInfoFromPos`;
- a click carries its target's ancestor chain;
- a `Host` value supplies the serialisers and `textBetween`;
- the result of `exitCode` is a boolean parameter.

Document writes and editor commands are recorded as sequences of steps or
requests, so a contract can say exactly what was dispatched and in which
order.

Where a lookup result is dereferenced without a check (Enter, the scroll
handler, `editLanguage`), a missing block is modelled as the handler
throwing.

The toolbar's `state` object is mutated in place after it has been emitted;
each emitted update is the state's value at the moment of emission. Locking
exists only as the `lockSelector` attribute, which a click elsewhere resets.
ArrowDown is the only arrow key handled, and there is no hover handling.

## Model

| member | source | states |
|---|---|---|
| CodeBlockContent.Backspace | packages/core/src/blocks/CodeBlockContent/CodeBlockContent.ts:150-164 | Backspace is swallowed iff the block lookup at the selection succeeds, the selection is collapsed, the block has content and the cursor is at the block's first inner position; a failed lookup never swallows |
| CodeBlockContent.Delete | packages/core/src/blocks/CodeBlockContent/CodeBlockContent.ts:118-132 | Delete is swallowed iff the lookup succeeds, the selection is collapsed, the block has content and the cursor is at the block's last inner position |
| CodeBlockContent.EmptyBlockSwallowsNothing | packages/core/src/blocks/CodeBlockContent/CodeBlockContent.ts:118-164 | in a block with empty content neither Backspace nor Delete is swallowed |
| CodeBlockContent.BackspaceDeleteExclusive | packages/core/src/blocks/CodeBlockContent/CodeBlockContent.ts:118-164 | Backspace and Delete swallow the same cursor only in a block whose end is two positions after its start |
| CodeBlockContent.ModA | packages/core/src/blocks/CodeBlockContent/CodeBlockContent.ts:133-148 | handled iff the lookup succeeds; then exactly one text selection from startPos + 1 to endPos - 1 is issued, otherwise nothing |
| CodeBlockContent.ModARangeEndsAreSwallowPoints | packages/core/src/blocks/CodeBlockContent/CodeBlockContent.ts:118-164 | in a non-empty block, Backspace is swallowed at the start of the Mod-a range and Delete at its end |
| CodeBlockContent.SwallowPointsAreModARangeEnds | packages/core/src/blocks/CodeBlockContent/CodeBlockContent.ts:118-164 | a swallowed Backspace is a collapsed cursor at the start of the Mod-a range of its block and a swallowed Delete one at its end; with `ModARangeEndsAreSwallowPoints` these are exactly the swallow points |
| CodeBlockContent.Tab | packages/core/src/blocks/CodeBlockContent/CodeBlockContent.ts:107-117 | inserts exactly one tab, then runs exitCode; the result is exitCode's |
| CodeBlockContent.Enter | packages/core/src/blocks/CodeBlockContent/CodeBlockContent.ts:166-186 | throws iff the lookup fails; declines with no step outside a code block or with a non-collapsed selection; otherwise inserts exactly one newline and runs exitCode, returning its result |
| CodeBlockContent.ArrowDown | packages/core/src/blocks/CodeBlockContent/CodeBlockContent.ts:214-245 | declines unless a collapsed cursor is at the end of a code block's content (`AtEndOfParent`); there it moves next to the following node if one exists, and otherwise runs exitCode |
| CodeBlockContent.LetterRun | packages/core/src/blocks/CodeBlockContent/CodeBlockContent.ts:26 | the greedy `[a-z]+` run: every character before it is a lowercase letter and the next one is not |
| CodeBlockContent.MatchBacktickFence | packages/core/src/blocks/CodeBlockContent/CodeBlockContent.ts:26 | a match means the input is exactly "```", the captured lowercase letters (absent or non-empty) and one white-space character |
| CodeBlockContent.FenceMatchComplete | packages/core/src/blocks/CodeBlockContent/CodeBlockContent.ts:26 | every "```" + lowercase letters + one white-space character matches, capturing exactly those letters |
| CodeBlockContent.InputRuleLanguage | packages/core/src/blocks/CodeBlockContent/CodeBlockContent.ts:249-258 | a language results iff the fence matches, and the language is never empty (the default when no letters were captured) |
| CodeBlockContent.InputRuleLanguageOfFence | packages/core/src/blocks/CodeBlockContent/CodeBlockContent.ts:249-258 | for every three backticks followed by lower-case letters and a whitespace character, the rule sets the letters as the language, or the default when there are none |
| CodeBlockContent.FenceExamples | packages/core/src/blocks/CodeBlockContent/CodeBlockContent.ts:26 | "```js " gives "js", "```JS " does not match, "```" followed by a newline gives the default language |
| CodeBlockContent.ParseLanguage | packages/core/src/blocks/CodeBlockContent/CodeBlockContent.ts:49-57 | the parse rule yields null iff `data-language` is absent or empty, and otherwise yields it unchanged |
| CodeBlockContent.ParsedLanguageAttr | packages/core/src/blocks/CodeBlockContent/CodeBlockContent.ts:45-58 | the parsed attribute is never empty, and a null parse leaves the default "javascript" |
| CodeBlockContent.RenderDataLanguage | packages/core/src/blocks/CodeBlockContent/CodeBlockContent.ts:82 | a null language renders as an empty `data-language` |
| CodeBlockContent.LanguageRoundTrip | packages/core/src/blocks/CodeBlockContent/CodeBlockContent.ts:45-85 | rendering then parsing keeps a non-empty language and turns an empty or null one into the default |
| CodeBlockContent.NormalizeLineEndings | packages/core/src/blocks/CodeBlockContent/CodeBlockContent.ts:326 | the result holds no carriage return, is no longer than the input, and a text without carriage returns is unchanged; `NormalizeJoinsLines` fixes the result exactly |
| CodeBlockContent.NormalizeIdempotent | packages/core/src/blocks/CodeBlockContent/CodeBlockContent.ts:326 | normalising twice equals normalising once |
| CodeBlockContent.NormalizeKeepsText | packages/core/src/blocks/CodeBlockContent/CodeBlockContent.ts:326 | apart from line breaks, every character is kept, in order |
| CodeBlockContent.NormalizeKeepsLineBreaks | packages/core/src/blocks/CodeBlockContent/CodeBlockContent.ts:326 | the number of line breaks ("\r\n", lone "\r" or "\n") is kept |
| CodeBlockContent.Lines | packages/core/src/blocks/CodeBlockContent/CodeBlockContent.ts:326 | a text splits into one more line than it has line breaks, each break being "\r\n", a lone "\r" or "\n" |
| CodeBlockContent.NormalizeKeepsLines | packages/core/src/blocks/CodeBlockContent/CodeBlockContent.ts:326 | the normalised text has the same lines as the input, in the same order |
| CodeBlockContent.NormalizeJoinsLines | packages/core/src/blocks/CodeBlockContent/CodeBlockContent.ts:326 | the normalised text is exactly the input's lines joined by "\n", so each break becomes one "\n" in its own place |
| CodeBlockContent.NormalizeExamples | packages/core/src/blocks/CodeBlockContent/CodeBlockContent.ts:326 | "a\r\nb" and "a\rb" both become "a\nb" |
| CodeBlockContent.HandlePaste | packages/core/src/blocks/CodeBlockContent/CodeBlockContent.ts:302-349 | handled iff `PasteApplies`: there is clipboard data, the cursor is not in a code block, and both text and VS Code mode are non-empty; then one transaction replaces the selection with a code block of the normalised text (no carriage return), moves the cursor back into it when needed, and marks it as a paste; otherwise nothing is dispatched |
| CopyExtension.NodesOfType | packages/core/src/api/clipboard/toClipboard/copyExtension.ts:14-31 | every collected node has the requested type, and an empty fragment yields nothing |
| CopyExtension.NodesOfTypeIn | packages/core/src/api/clipboard/toClipboard/copyExtension.ts:20-28 | every node collected from one child and its content has the requested type |
| CopyExtension.FindChildNodesOfType | packages/core/src/api/clipboard/toClipboard/copyExtension.ts:14-31 | the loop that pushes matching children and recurses into non-empty content returns exactly `NodesOfType` |
| CopyExtension.NodesOfTypeIsFilteredPreOrder | packages/core/src/api/clipboard/toClipboard/copyExtension.ts:14-31 | the collected nodes are the fragment's pre-order traversal filtered by type |
| CopyExtension.NodesOfTypeInIsFilteredPreOrder | packages/core/src/api/clipboard/toClipboard/copyExtension.ts:20-28 | for one node: itself (if it matches) followed by its matching descendants, in pre-order |
| CopyExtension.NodesOfTypeExact | packages/core/src/api/clipboard/toClipboard/copyExtension.ts:14-31 | a node is collected iff it occurs at some depth in the fragment and has the requested type |
| CopyExtension.ExportChoiceFor | packages/core/src/api/clipboard/toClipboard/copyExtension.ts:67-116 | a cell selection applies neither override; otherwise "within block content" iff no top-level node of the parentless slice is a blockContainer, a blockGroup or in group blockContent (`IsBlockStructure`), and the slice is then exported; any code block in the content makes exactly the code blocks the export; `simplifyBlocks` holds only when none of the three cases applies |
| CopyExtension.ChooseExportFragment | packages/core/src/api/clipboard/toClipboard/copyExtension.ts:67-104 | the step-by-step choice (collect, copy the children, search them, reassign) equals `ExportChoiceFor` |
| CopyExtension.OutputFor | packages/core/src/api/clipboard/toClipboard/copyExtension.ts:106-124 | the export completes iff the dependencies load; its internal HTML is the one computed before loading, its external HTML is the export of the chosen fragment with the chosen `simplifyBlocks`, its Markdown is the Markdown of that HTML and its text is the text of the resumed selection |
| CopyExtension.Slots | packages/core/src/api/clipboard/toClipboard/copyExtension.ts:146-149 | exactly the four slots blocknote/html, text/html, text/markdown and text/plain are written, holding the internal HTML, the external HTML, the Markdown and the text |
| CopyExtension.BeginExport | packages/core/src/api/clipboard/toClipboard/copyExtension.ts:46-104 | a selected blockContent node is widened to its block (`Widen`) by one dispatched NodeSelection, and the pending export is computed from the widened selection |
| CopyExtension.FinishExport | packages/core/src/api/clipboard/toClipboard/copyExtension.ts:106-124 | the resumed export computes `OutputFor` with the text of the selection current at resumption |
| CopyExtension.WriteSlots | packages/core/src/api/clipboard/toClipboard/copyExtension.ts:140-150 | into cleared data, a completed export writes exactly its four slots and a failed one writes nothing |
| CopyExtension.Copy | packages/core/src/api/clipboard/toClipboard/copyExtension.ts:127-151 | the default is prevented, the data cleared, the selection widened if needed and exactly the four slots of its export written; it always reports handled |
| CopyExtension.Cut | packages/core/src/api/clipboard/toClipboard/copyExtension.ts:172-177 | as written: the widening, then the deletion, and the slots are computed with the text of the selection left by the deletion |
| CopyExtension.CutLosesPlainText | packages/core/src/api/clipboard/toClipboard/copyExtension.ts:172-176 | a cut of a selection whose text is "x", where the deletion leaves an empty selection, writes "" to text/plain |
| CopyExtension.CutCorrected | packages/core/src/api/clipboard/toClipboard/copyExtension.ts:172-176 | with the export finished before the deletion, text/plain holds the text of the widened selection that was cut |
| CopyExtension.DragStart | packages/core/src/api/clipboard/toClipboard/copyExtension.ts:181-221 | nothing changes unless a blockContent node is selected; then the selection is widened to its block, the default prevented and the four slots written |
| CodeBlockPlugin.FirstWithClass | packages/core/src/extensions/CodeBlock/CodeBlockPlugin.ts:57-66 | the index found is the first element of the chain, target included, with the class, and none is found iff no element has it |
| CodeBlockPlugin.FindCodeLanguageElement | packages/core/src/extensions/CodeBlock/CodeBlockPlugin.ts:57-66 | the loop up the ancestor chain stops at exactly `FirstWithClass`'s element |
| CodeBlockPlugin.Unlocked | packages/core/src/extensions/CodeBlock/CodeBlockPlugin.ts:92-97 | `lockSelector` becomes false and every other attribute is kept |
| CodeBlockPlugin.Closed | packages/core/src/extensions/CodeBlock/CodeBlockPlugin.ts:147-153 | `showSelector` and `lockSelector` become false and every other attribute is kept |
| CodeBlockPlugin.WithLanguage | packages/core/src/extensions/CodeBlock/CodeBlockPlugin.ts:124-129 | `language` is set and every other attribute is kept |
| CodeBlockPlugin.ClickStep | packages/core/src/extensions/CodeBlock/CodeBlockPlugin.ts:44-101 | an ignored click changes nothing; a label click remembers its block and opens a hidden toolbar there with the block's language; exactly one update is emitted when the toolbar opens and none otherwise; a click elsewhere unlocks the remembered block and leaves the toolbar alone; the emitted-state invariant is kept |
| CodeBlockPlugin.ScrollStep | packages/core/src/extensions/CodeBlock/CodeBlockPlugin.ts:103-116 | acts only when shown with a remembered block; throws iff that block is not found, and then changes nothing; otherwise, when the block's label is found the anchor rectangle becomes the label's and exactly that state is emitted once, and when it is missing nothing changes |
| CodeBlockPlugin.EditLanguageStep | packages/core/src/extensions/CodeBlock/CodeBlockPlugin.ts:118-135 | throws iff no block is at the anchor, changing nothing; otherwise requests the new language on the anchor's block keeping its other attributes, leaves the toolbar hidden and emits once iff it was shown |
| CodeBlockPlugin.CloseMenuStep | packages/core/src/extensions/CodeBlock/CodeBlockPlugin.ts:137-160 | a no-op when hidden; when shown, clears `showSelector` and `lockSelector` on the remembered block if found, hides the toolbar and emits once |
| CodeBlockPlugin.CloseMenuIdempotent | packages/core/src/extensions/CodeBlock/CodeBlockPlugin.ts:137-160 | closing twice is closing once |
| CodeBlockPlugin.OnlyLabelClicksOpen | packages/core/src/extensions/CodeBlock/CodeBlockPlugin.ts:75-82 | scrolling, `editLanguage` and `closeMenu` never show a hidden toolbar |
| CodeBlockPlugin.ShownToolbarIgnoresLabelClicks | packages/core/src/extensions/CodeBlock/CodeBlockPlugin.ts:68-82 | a label click while shown changes only the remembered block |
| CodeBlockPlugin.CodeBlockToolbarView.constructor | packages/core/src/extensions/CodeBlock/CodeBlockPlugin.ts:20-42 | no state and no block yet, and exactly the click and scroll listeners registered |
| CodeBlockPlugin.CodeBlockToolbarView.EmitUpdate | packages/core/src/extensions/CodeBlock/CodeBlockPlugin.ts:25-33 | throws iff there is no state; otherwise emits the current state unchanged |
| CodeBlockPlugin.CodeBlockToolbarView.ClickHandler | packages/core/src/extensions/CodeBlock/CodeBlockPlugin.ts:44-101 | the fields and logs afterwards are `ClickStep` of those before; the invariant is kept |
| CodeBlockPlugin.CodeBlockToolbarView.ScrollHandler | packages/core/src/extensions/CodeBlock/CodeBlockPlugin.ts:103-116 | the outcome and the fields afterwards are `ScrollStep` of those before |
| CodeBlockPlugin.CodeBlockToolbarView.EditLanguage | packages/core/src/extensions/CodeBlock/CodeBlockPlugin.ts:118-135 | the outcome and the fields afterwards are `EditLanguageStep` of those before; the listeners are kept |
| CodeBlockPlugin.CodeBlockToolbarView.CloseMenu | packages/core/src/extensions/CodeBlock/CodeBlockPlugin.ts:137-160 | the fields afterwards are `CloseMenuStep` of those before; the listeners are kept |
| CodeBlockPlugin.CodeBlockToolbarView.Destroy | packages/core/src/extensions/CodeBlock/CodeBlockPlugin.ts:162-169 | removes exactly the two listeners and changes nothing else |
| CodeBlockPlugin.CodeBlockToolbarPlugin.constructor | packages/core/src/extensions/CodeBlock/CodeBlockPlugin.ts:181-186 | the plugin starts without a view |
| CodeBlockPlugin.CodeBlockToolbarPlugin.CreateView | packages/core/src/extensions/CodeBlock/CodeBlockPlugin.ts:188-193 | a new, empty view with both listeners, kept by the plugin |
| CodeBlockPlugin.CodeBlockToolbarPlugin.Shown | packages/core/src/extensions/CodeBlock/CodeBlockPlugin.ts:214-216 | shown iff there is a view with a state whose `show` is true |
| CodeBlockPlugin.CodeBlockToolbarPlugin.HandleKeyDown | packages/core/src/extensions/CodeBlock/CodeBlockPlugin.ts:195-201 | handled iff the key is Escape and the toolbar is shown; then the menu is closed and the toolbar hidden; otherwise nothing changes; the view's listeners are kept |
| CodeBlockPlugin.CodeBlockToolbarPlugin.EditLanguage | packages/core/src/extensions/CodeBlock/CodeBlockPlugin.ts:210-212 | throws without a view; otherwise behaves as the view's `editLanguage` and keeps its listeners |
| CodeBlockPlugin.CodeBlockToolbarPlugin.CloseMenu | packages/core/src/extensions/CodeBlock/CodeBlockPlugin.ts:218 | throws iff there is no view; otherwise behaves as the view's `closeMenu` and keeps its listeners |
| CodeBlockToolbar.IndexOf | packages/react/src/components/CodeBlockToolbar/CodeBlockToolbar.tsx:67 | the first index where the value occurs, or -1 exactly when it does not occur |
| CodeBlockToolbar.RenderedItems | packages/react/src/components/CodeBlockToolbar/CodeBlockToolbar.tsx:66-69 | a language is rendered iff it is listed and contains the search value |
| CodeBlockToolbar.RenderedItemsKeepOrder | packages/react/src/components/CodeBlockToolbar/CodeBlockToolbar.tsx:66-69 | the rendered list is a subsequence of the listed languages |
| CodeBlockToolbar.RenderedItemsCounts | packages/react/src/components/CodeBlockToolbar/CodeBlockToolbar.tsx:66-69 | each matching language is rendered as many times as it is listed, others never |
| CodeBlockToolbar.EmptyValueRendersAll | packages/react/src/components/CodeBlockToolbar/CodeBlockToolbar.tsx:67 | an empty search value renders the list unchanged |
| CodeBlockToolbar.FilterExample | packages/react/src/components/CodeBlockToolbar/CodeBlockToolbar.tsx:67 | "ja" over python, javascript, java renders javascript, java |
| CodeBlockToolbar.EnterCommit | packages/react/src/components/CodeBlockToolbar/CodeBlockToolbar.tsx:71-78 | a language is committed iff the key is Enter and the active index holds a rendered, non-empty item, and it is that item |
| CodeBlockToolbar.CommittedIsListedMatch | packages/react/src/components/CodeBlockToolbar/CodeBlockToolbar.tsx:66-78 | a committed language is listed and contains the search value |
| CodeBlockToolbar.SelectedItems | packages/react/src/components/CodeBlockToolbar/CodeBlockToolbar.tsx:25-34 | at most one item has `aria-selected` (`AriaSelected`), and it is the active one whenever an active item is rendered |
| CodeBlockToolbar.TabbableItems | packages/react/src/components/CodeBlockToolbar/CodeBlockToolbar.tsx:25-36 | at most one item has `tabIndex` 0 (`TabIndex`), and none iff no active item is rendered |
| CodeBlockToolbar.CodeBlockToolbarComponent.constructor | packages/react/src/components/CodeBlockToolbar/CodeBlockToolbar.tsx:63 | the search value starts empty and nothing is committed |
| CodeBlockToolbar.CodeBlockToolbarComponent.SetValue | packages/react/src/components/CodeBlockToolbar/CodeBlockToolbar.tsx:105-108 | the search value becomes the input's text and nothing is committed |
| CodeBlockToolbar.CodeBlockToolbarComponent.HandleKeyDown | packages/react/src/components/CodeBlockToolbar/CodeBlockToolbar.tsx:71-78 | stops propagation iff the key is Enter, and passes `EnterCommit`'s language to `onItemClick` when it is given |
| CodeBlockToolbar.CodeBlockToolbarComponent.KeyDownInInput | packages/react/src/components/CodeBlockToolbar/CodeBlockToolbar.tsx:95-104 | with the same handler on the input and the element around it, Enter commits at most once and other keys commit nothing |

## Left out

- The ProseMirror document model and Tiptap's commands: positions,
  `resolve`, `nodeAt`, `Selection.near`, `exitCode`, `setNodeMarkup` and
  `getBlockInfoFromPos` are inputs or recorded requests. The effect of a
  request on the document is not modelled.
- The HTML and Markdown exporters, ProseMirror's clipboard serialiser,
  `textBetween` and the one-time dependency initialisation are functions
  supplied by the caller.
- Asynchrony: the copy, cut and drag-start exports are run to completion at
  their single `await`. Only the deletion that the cut handler performs
  before the export resumes is placed between the two halves. Other events
  that could interleave there are not.
- The browser's clipboard and drag events are modelled as data objects with
  named slots and a prevented-default flag. The JSON decoding of the
  VS Code data is reduced to its decoded `mode`.
- DOM geometry and lookup are inputs: rectangles, `posAtDOM`, whether a
  target lies in the editor's wrapper, and the label element that
  `querySelector` finds for a block id. The listeners' callback identity is
  reduced to two listener tags.
- The node view that builds the label element, the highlighting plugin, the
  catalogue of languages and the list-navigation library that computes the
  active and selected indices are outside the model. The language list and
  the indices are inputs.
- Aliasing: the toolbar mutates the state object it has already emitted.
  The model records each update as a value, so a subscriber holding an
  earlier state does not see later mutations.
- The `useEffect` that scrolls the selected item into view and focuses the
  input after a timeout is not modelled.
- CodeBlockContent.Tab: the chain's `insertContent` and the commands
  before `exitCode` are taken to succeed, so the result is `exitCode`'s. A
  failing `insertContent` is not modelled.
- CodeBlockContent.Enter: likewise, the `insertContent` in the chain is
  taken to succeed, so the result is `exitCode`'s.
- CodeBlockContent.RenderDataLanguage: states only the null case. For a
  non-empty language it renders that language, which
  `CodeBlockContent.LanguageRoundTrip` states.

## Findings

| source | as written | input that shows it | evidently intended | confidence | as-written member | corrected member |
|---|---|---|---|---|---|---|
| packages/core/src/api/clipboard/toClipboard/copyExtension.ts:172-176 | the cut handler starts the export, which stops at its first `await`, and then dispatches `deleteSelection`; the export resumes afterwards and reads the plain text from the selection current then (lines 121-122), which the deletion has collapsed | cut a text selection "x": the deletion leaves an empty selection, so text/plain is written as "" | text/plain holds the text of the selection that was cut, as the other three slots are computed before the deletion | medium, not executed | CopyExtension.Cut, CopyExtension.CutLosesPlainText | CopyExtension.CutCorrected |
