/**
 * The `codeBlock` node: its keyboard shortcuts, the backtick input rule,
 * the `language` attribute's HTML parse and render rules, and the handler
 * that turns a paste from VS Code into a code block.
 *
 * The editor is not modelled. A handler receives what it would read from the
 * editor (the selection, the block lookup, the resolved position, the result
 * of `exitCode`) and returns whether it handled the key together with the
 * editor commands or transaction steps it issued, in order.
 */
module CodeBlockContent {
  import opened CodeBlockTypes

  const DefaultLanguage: string := "javascript"

  /** A text selection: `empty` holds when anchor and head coincide. */
  datatype TextSelection = TextSelection(anchor: int, head: int) {
    function From(): int { if anchor <= head then anchor else head }
    predicate Empty() { anchor == head }
  }

  /** An editor command or transaction step that a handler issues. */
  datatype Step =
    | InsertText(text: string)                  // insertContent({type: "text", text})
    | ExitCode                                   // exitCode()
    | SetTextSelection(from: int, to: int)       // setTextSelection({from, to})
    | SelectionNear(pos: int)                    // setSelection(Selection.near(resolve(pos)))
    | TextSelectionNear(pos: int)                // setSelection(TextSelection.near(resolve(pos)))
    | ReplaceSelectionWithCodeBlock(language: string, text: string)
    | SetMeta(key: string, value: bool)

  /** A handler that may throw before it returns. */
  datatype KeyResult = Returned(handled: bool, steps: seq<Step>) | Thrown

  /** The part of a resolved position (`$from`) that ArrowDown reads. */
  datatype ResolvedPos = ResolvedPos(parentType: string, parentOffset: int, parentNodeSize: int, after: int)

  // ---------------------------------------------------------------------
  // Keyboard shortcuts
  // ---------------------------------------------------------------------

  /** The first position inside the block found by the lookup. */
  function ContentStart(info: BlockInfo): int { info.startPos + 1 }

  /** The last position inside the block found by the lookup. */
  function ContentEnd(info: BlockInfo): int { info.endPos - 1 }

  /**
   * Backspace is swallowed (returns true, so nothing else deletes) exactly
   * when the block lookup at the selection succeeds, the block has content,
   * and a collapsed cursor stands at the block's first position.
   */
  function Backspace(lookup: BlockLookup, sel: TextSelection): (swallowed: bool)
    ensures lookup(sel.From()).None? ==> !swallowed
    ensures swallowed <==>
      && lookup(sel.From()).Some?
      && sel.Empty()
      && lookup(sel.From()).value.nodeContentSize > 0
      && sel.anchor == ContentStart(lookup(sel.From()).value)
  {
    match lookup(sel.From())
    case None => false
    case Some(info) => info.nodeContentSize > 0 && sel.anchor == info.startPos + 1 && sel.Empty()
  }

  /**
   * Delete is swallowed exactly when the lookup succeeds, the block has
   * content, and a collapsed cursor stands at the block's last position.
   */
  function Delete(lookup: BlockLookup, sel: TextSelection): (swallowed: bool)
    ensures lookup(sel.From()).None? ==> !swallowed
    ensures swallowed <==>
      && lookup(sel.From()).Some?
      && sel.Empty()
      && lookup(sel.From()).value.nodeContentSize > 0
      && sel.anchor == ContentEnd(lookup(sel.From()).value)
  {
    match lookup(sel.From())
    case None => false
    case Some(info) => info.nodeContentSize > 0 && sel.anchor == info.endPos - 1 && sel.Empty()
  }

  /** A block whose content is empty swallows neither Backspace nor Delete. */
  lemma EmptyBlockSwallowsNothing(lookup: BlockLookup, sel: TextSelection)
    requires lookup(sel.From()).Some? && lookup(sel.From()).value.nodeContentSize == 0
    ensures !Backspace(lookup, sel) && !Delete(lookup, sel)
  {
  }

  /**
   * Backspace and Delete swallow the same cursor only in a block whose start
   * and end positions are two apart, i.e. with no position between them.
   */
  lemma BackspaceDeleteExclusive(lookup: BlockLookup, sel: TextSelection)
    requires Backspace(lookup, sel) && Delete(lookup, sel)
    ensures lookup(sel.From()).value.endPos == lookup(sel.From()).value.startPos + 2
  {
  }

  /**
   * Mod-a: with block info, selects exactly the block's inner range
   * [startPos + 1, endPos - 1] and returns true; without, does nothing.
   */
  method ModA(lookup: BlockLookup, sel: TextSelection) returns (handled: bool, steps: seq<Step>)
    ensures handled <==> lookup(sel.From()).Some?
    ensures !handled ==> steps == []
    ensures handled ==>
      steps == [SetTextSelection(ContentStart(lookup(sel.From()).value), ContentEnd(lookup(sel.From()).value))]
  {
    var blockInfo := lookup(sel.From());
    if blockInfo.None? {
      return false, [];
    }
    var info := blockInfo.value;
    steps := [SetTextSelection(info.startPos + 1, info.endPos - 1)];
    handled := true;
  }

  /**
   * The range Mod-a selects runs from the cursor at which Backspace is
   * swallowed to the cursor at which Delete is swallowed, for a non-empty
   * block that the lookup finds at both ends.
   */
  lemma ModARangeEndsAreSwallowPoints(lookup: BlockLookup, info: BlockInfo)
    requires info.nodeContentSize > 0
    requires lookup(ContentStart(info)) == Some(info)
    requires lookup(ContentEnd(info)) == Some(info)
    ensures Backspace(lookup, TextSelection(ContentStart(info), ContentStart(info)))
    ensures Delete(lookup, TextSelection(ContentEnd(info), ContentEnd(info)))
  {
  }

  /**
   * Backspace and Delete are swallowed only at the ends of the range Mod-a
   * selects: a swallowed Backspace has a collapsed cursor at the block's
   * first inner position, a swallowed Delete at its last.
   */
  lemma SwallowPointsAreModARangeEnds(lookup: BlockLookup, sel: TextSelection, info: BlockInfo)
    requires lookup(sel.From()) == Some(info)
    ensures Backspace(lookup, sel) ==> sel == TextSelection(ContentStart(info), ContentStart(info))
    ensures Delete(lookup, sel) ==> sel == TextSelection(ContentEnd(info), ContentEnd(info))
  {
  }

  /**
   * Tab: inserts one tab character and then runs `exitCode`; the chain's
   * result is `exitCode`'s, since the other two commands succeed.
   */
  method Tab(exitCodeOk: bool) returns (handled: bool, steps: seq<Step>)
    ensures steps == [InsertText("\t"), ExitCode]
    ensures handled == exitCodeOk
  {
    steps := [InsertText("\t")];
    steps := steps + [ExitCode];
    handled := exitCodeOk;
  }

  /**
   * Enter: the block lookup is dereferenced without a check, so a missing
   * block throws. Outside a code block, or with a non-collapsed selection,
   * it returns false; otherwise it inserts exactly one newline and runs
   * `exitCode`, returning that command's result.
   */
  method Enter(lookup: BlockLookup, sel: TextSelection, exitCodeOk: bool) returns (r: KeyResult)
    ensures lookup(sel.From()).None? <==> r.Thrown?
    ensures lookup(sel.From()).Some? && (lookup(sel.From()).value.contentType != CodeBlockType || !sel.Empty())
      ==> r == Returned(false, [])
    ensures lookup(sel.From()).Some? && lookup(sel.From()).value.contentType == CodeBlockType && sel.Empty()
      ==> r == Returned(exitCodeOk, [InsertText("\n"), ExitCode])
  {
    var blockInfo := lookup(sel.From());
    if blockInfo.None? {
      return Thrown;
    }
    var contentType := blockInfo.value.contentType;
    var selectionEmpty := sel.anchor == sel.head;
    if contentType != CodeBlockType || !selectionEmpty {
      return Returned(false, []);
    }
    var steps := [InsertText("\n")];
    steps := steps + [ExitCode];
    r := Returned(exitCodeOk, steps);
  }

  /**
   * The cursor is at the end of its parent's content: the parent's node size
   * counts its opening and closing token, so the content ends two short of it.
   */
  predicate AtEndOfParent(from: ResolvedPos)
  {
    from.parentOffset == from.parentNodeSize - 2
  }

  /**
   * ArrowDown: declines unless a collapsed cursor stands at the end of a
   * code block's content. There, it moves the selection next to the node
   * after the block if there is one (and returns true), and otherwise runs
   * `exitCode` and returns its result.
   */
  method ArrowDown(sel: TextSelection, from: ResolvedPos, nodeAt: int -> bool, exitCodeOk: bool)
    returns (handled: bool, steps: seq<Step>)
    ensures !sel.Empty() || from.parentType != CodeBlockType || !AtEndOfParent(from)
      ==> !handled && steps == []
    ensures sel.Empty() && from.parentType == CodeBlockType && AtEndOfParent(from) && nodeAt(from.after)
      ==> handled && steps == [SelectionNear(from.after)]
    ensures sel.Empty() && from.parentType == CodeBlockType && AtEndOfParent(from) && !nodeAt(from.after)
      ==> handled == exitCodeOk && steps == [ExitCode]
  {
    if !sel.Empty() || from.parentType != CodeBlockType {
      return false, [];
    }
    var isAtEnd := from.parentOffset == from.parentNodeSize - 2;
    if !isAtEnd {
      return false, [];
    }
    var after := from.after;
    if nodeAt(after) {
      steps := [SelectionNear(after)];
      handled := true;
      return;
    }
    steps := [ExitCode];
    handled := exitCodeOk;
  }

  // ---------------------------------------------------------------------
  // The backtick input rule: /^```([a-z]+)?[\s\n]$/
  // ---------------------------------------------------------------------

  /** The regular-expression class `[a-z]`. */
  predicate IsLowerLetter(c: char) { 'a' <= c <= 'z' }

  /**
   * JavaScript's `\s` class (which already holds `\n`): the ASCII white
   * space, the no-break space, the Unicode space separators, the line and
   * paragraph separators and the byte-order mark.
   */
  predicate IsRegexSpace(c: char)
  {
    c == '\t' || c == '\n' || c == '\U{000B}' || c == '\U{000C}' || c == '\r' || c == ' '
    || c == '\U{00A0}' || c == '\U{1680}' || ('\U{2000}' <= c <= '\U{200A}')
    || c == '\U{2028}' || c == '\U{2029}' || c == '\U{202F}' || c == '\U{205F}'
    || c == '\U{3000}' || c == '\U{FEFF}'
  }

  predicate AllLowerLetters(s: string)
  {
    forall i :: 0 <= i < |s| ==> IsLowerLetter(s[i])
  }

  /** The length of the longest run of `[a-z]` at the start of `s` (the greedy `[a-z]+`). */
  function LetterRun(s: string): (n: nat)
    ensures n <= |s|
    ensures AllLowerLetters(s[..n])
    ensures n < |s| ==> !IsLowerLetter(s[n])
  {
    if s == [] || !IsLowerLetter(s[0]) then 0 else 1 + LetterRun(s[1..])
  }

  /** The result of matching the fence regex: no match, or capture group 1 (absent or present). */
  datatype FenceMatch = NoMatch | Matched(group: Option<string>)

  /**
   * Matches "```", then the greedy letter run as group 1, then exactly one
   * white-space character at the end of the input. A match means the input
   * is the fence, the lowercase letters of the group, and one space.
   */
  function MatchBacktickFence(s: string): (m: FenceMatch)
    ensures m.Matched? ==>
      var letters := if m.group.Some? then m.group.value else "";
      && (m.group.Some? ==> m.group.value != "")
      && AllLowerLetters(letters)
      && |s| == 4 + |letters|
      && s == "```" + letters + [s[|s| - 1]]
      && IsRegexSpace(s[|s| - 1])
  {
    if |s| < 3 || s[..3] != "```" then NoMatch
    else
      var n := LetterRun(s[3..]);
      var rest := s[3 + n..];
      if |rest| == 1 && IsRegexSpace(rest[0]) then
        assert s == s[..3] + s[3..3 + n] + rest;
        assert s[3..3 + n] == s[3..][..n];
        Matched(if n == 0 then None else Some(s[3..3 + n]))
      else NoMatch
  }

  /**
   * The fence regex accepts every string of the form "```", lowercase
   * letters, one white-space character, and captures exactly those letters.
   */
  lemma {:induction false} FenceMatchComplete(letters: string, space: char)
    requires AllLowerLetters(letters) && IsRegexSpace(space)
    ensures MatchBacktickFence("```" + letters + [space])
      == Matched(if letters == "" then None else Some(letters))
  {
    var s := "```" + letters + [space];
    assert s[..3] == "```";
    assert s[3..] == letters + [space];
    LetterRunOfLetters(letters, space);
    assert s[3 + |letters|..] == [space];
    assert s[3..3 + |letters|] == letters;
  }

  lemma {:induction false} LetterRunOfLetters(letters: string, space: char)
    requires AllLowerLetters(letters) && IsRegexSpace(space)
    ensures LetterRun(letters + [space]) == |letters|
  {
    if letters != [] {
      assert (letters + [space])[1..] == letters[1..] + [space];
      LetterRunOfLetters(letters[1..], space);
    }
  }

  /**
   * The `language` attribute the input rule gives the new code block: the
   * captured letters, or, when the group did not participate (undefined),
   * the attribute's default.
   */
  function InputRuleLanguage(s: string): (lang: Option<string>)
    ensures lang.Some? <==> MatchBacktickFence(s).Matched?
    ensures lang.Some? ==> lang.value != ""
  {
    match MatchBacktickFence(s)
    case NoMatch => None
    case Matched(group) => Some(if group.Some? then group.value else DefaultLanguage)
  }

  /**
   * For every fence the rule accepts, the new block's language is the
   * captured letters, or the default when none were captured.
   */
  lemma {:induction false} InputRuleLanguageOfFence(letters: string, space: char)
    requires AllLowerLetters(letters) && IsRegexSpace(space)
    ensures InputRuleLanguage("```" + letters + [space])
      == Some(if letters == "" then DefaultLanguage else letters)
  {
    FenceMatchComplete(letters, space);
  }

  /** "```js " opens a JavaScript block, "```JS " does not match, "``` " takes the default. */
  lemma FenceExamples()
    ensures InputRuleLanguage("```js ") == Some("js")
    ensures InputRuleLanguage("```JS ") == None
    ensures InputRuleLanguage("```\n") == Some(DefaultLanguage)
  {
    FenceMatchComplete("js", ' ');
    assert "```" + "js" + [' '] == "```js ";
    FenceMatchComplete("", '\n');
    assert "```" + "" + ['\n'] == "```\n";
    var s := "```JS ";
    assert s[3..][0] == 'J';
    assert LetterRun(s[3..]) == 0;
  }

  // ---------------------------------------------------------------------
  // The `language` attribute
  // ---------------------------------------------------------------------

  /**
   * The attribute's parse rule: `data-language` when it is present and not
   * empty, and null otherwise.
   */
  function ParseLanguage(dataLanguage: Option<string>): (r: Option<string>)
    ensures r.None? <==> dataLanguage.None? || dataLanguage.value == ""
    ensures r.Some? ==> r == dataLanguage
  {
    match dataLanguage
    case None => None
    case Some(l) => if l == "" then None else Some(l)
  }

  /** The parsed attribute value: a null parse result leaves the default in place. */
  function ParsedLanguageAttr(dataLanguage: Option<string>): (lang: string)
    ensures lang != ""
    ensures ParseLanguage(dataLanguage).None? ==> lang == DefaultLanguage
  {
    match ParseLanguage(dataLanguage)
    case None => DefaultLanguage
    case Some(l) => l
  }

  /** Rendering writes `data-language` as the language, or "" when it is null. */
  function RenderDataLanguage(language: Option<string>): (attr: string)
    ensures language.None? ==> attr == ""
  {
    match language
    case None => ""
    case Some(l) => l
  }

  /**
   * Rendering and parsing back keeps a non-empty language; an empty or null
   * language comes back as the default.
   */
  lemma LanguageRoundTrip(language: Option<string>)
    ensures ParsedLanguageAttr(Some(RenderDataLanguage(language)))
      == if language.Some? && language.value != "" then language.value else DefaultLanguage
  {
  }

  // ---------------------------------------------------------------------
  // Pasting from VS Code
  // ---------------------------------------------------------------------

  /**
   * Replaces every "\r\n" and every lone "\r" by "\n", scanning left to
   * right as the global regex /\r\n?/g does.
   */
  function NormalizeLineEndings(s: string): (r: string)
    ensures '\r' !in r
    ensures |r| <= |s|
    ensures '\r' !in s ==> r == s
  {
    if s == [] then []
    else if s[0] == '\r' then
      if |s| > 1 && s[1] == '\n' then "\n" + NormalizeLineEndings(s[2..])
      else "\n" + NormalizeLineEndings(s[1..])
    else [s[0]] + NormalizeLineEndings(s[1..])
  }

  /** Normalising twice is normalising once. */
  lemma NormalizeIdempotent(s: string)
    ensures NormalizeLineEndings(NormalizeLineEndings(s)) == NormalizeLineEndings(s)
  {
  }

  /** The text without its line-break characters. */
  function WithoutBreaks(s: string): string
  {
    if s == [] then []
    else if s[0] == '\r' || s[0] == '\n' then WithoutBreaks(s[1..])
    else [s[0]] + WithoutBreaks(s[1..])
  }

  /** Normalising changes line breaks only: every other character stays, in order. */
  lemma {:induction false} NormalizeKeepsText(s: string)
    ensures WithoutBreaks(NormalizeLineEndings(s)) == WithoutBreaks(s)
  {
    if s == [] {
    } else if s[0] == '\r' {
      if |s| > 1 && s[1] == '\n' {
        NormalizeKeepsText(s[2..]);
        assert WithoutBreaks(s) == WithoutBreaks(s[1..]) == WithoutBreaks(s[2..]);
        assert WithoutBreaks("\n" + NormalizeLineEndings(s[2..])) == WithoutBreaks(NormalizeLineEndings(s[2..]));
      } else {
        NormalizeKeepsText(s[1..]);
        assert WithoutBreaks("\n" + NormalizeLineEndings(s[1..])) == WithoutBreaks(NormalizeLineEndings(s[1..]));
      }
    } else {
      NormalizeKeepsText(s[1..]);
      var t := [s[0]] + NormalizeLineEndings(s[1..]);
      assert t[0] == s[0] && t[1..] == NormalizeLineEndings(s[1..]);
    }
  }

  /** The line breaks of a text: one per "\r\n", lone "\r" or "\n". */
  function LineBreaks(s: string): nat
  {
    if s == [] then 0
    else if s[0] == '\r' && |s| > 1 && s[1] == '\n' then 1 + LineBreaks(s[2..])
    else if s[0] == '\r' || s[0] == '\n' then 1 + LineBreaks(s[1..])
    else LineBreaks(s[1..])
  }

  /** Normalising keeps the number of line breaks: each becomes one "\n". */
  lemma {:induction false} NormalizeKeepsLineBreaks(s: string)
    ensures LineBreaks(NormalizeLineEndings(s)) == LineBreaks(s)
  {
    if s == [] {
    } else if s[0] == '\r' {
      var k := if |s| > 1 && s[1] == '\n' then 2 else 1;
      NormalizeKeepsLineBreaks(s[k..]);
      var t := "\n" + NormalizeLineEndings(s[k..]);
      assert t[0] == '\n' && t[1..] == NormalizeLineEndings(s[k..]);
    } else {
      NormalizeKeepsLineBreaks(s[1..]);
      var t := [s[0]] + NormalizeLineEndings(s[1..]);
      assert t[0] == s[0] && t[1..] == NormalizeLineEndings(s[1..]);
      if s[0] == '\n' {
        assert LineBreaks(t) == 1 + LineBreaks(t[1..]);
      }
    }
  }

  /**
   * The lines of a text, split at every "\r\n", lone "\r" or "\n"; a text
   * with k line breaks has k + 1 lines.
   */
  function Lines(s: string): (ls: seq<string>)
    ensures |ls| == LineBreaks(s) + 1
  {
    if s == [] then [""]
    else if s[0] == '\r' && |s| > 1 && s[1] == '\n' then [""] + Lines(s[2..])
    else if s[0] == '\r' || s[0] == '\n' then [""] + Lines(s[1..])
    else
      var rest := Lines(s[1..]);
      [[s[0]] + rest[0]] + rest[1..]
  }

  /** Lines joined with "\n" between consecutive ones. */
  function JoinLines(ls: seq<string>): string
    requires |ls| >= 1
  {
    if |ls| == 1 then ls[0] else ls[0] + "\n" + JoinLines(ls[1..])
  }

  /** Prepending a character to the first line prepends it to the joined text. */
  lemma JoinLinesConsFirst(c: char, ls: seq<string>)
    requires |ls| >= 1
    ensures JoinLines([[c] + ls[0]] + ls[1..]) == [c] + JoinLines(ls)
  {
    var ms := [[c] + ls[0]] + ls[1..];
    if |ls| > 1 {
      assert ms[1..] == ls[1..];
    }
  }

  /** An empty first line joins as a leading "\n". */
  lemma JoinLinesConsEmpty(ls: seq<string>)
    requires |ls| >= 1
    ensures JoinLines([""] + ls) == "\n" + JoinLines(ls)
  {
    assert ([""] + ls)[1..] == ls;
  }

  /** Normalising keeps every line, and each line stays where it was. */
  lemma {:induction false} NormalizeKeepsLines(s: string)
    ensures Lines(NormalizeLineEndings(s)) == Lines(s)
  {
    if s == [] {
    } else if s[0] == '\r' {
      var k := if |s| > 1 && s[1] == '\n' then 2 else 1;
      NormalizeKeepsLines(s[k..]);
      var t := "\n" + NormalizeLineEndings(s[k..]);
      assert t[0] == '\n' && t[1..] == NormalizeLineEndings(s[k..]);
    } else {
      NormalizeKeepsLines(s[1..]);
      var t := [s[0]] + NormalizeLineEndings(s[1..]);
      assert t[0] == s[0] && t[1..] == NormalizeLineEndings(s[1..]);
    }
  }

  /**
   * The normalised text is the input's lines joined by "\n": each line break
   * becomes one "\n" in its own place.
   */
  lemma {:induction false} NormalizeJoinsLines(s: string)
    ensures NormalizeLineEndings(s) == JoinLines(Lines(s))
  {
    if s == [] {
    } else if s[0] == '\r' || s[0] == '\n' {
      var k := if s[0] == '\r' && |s| > 1 && s[1] == '\n' then 2 else 1;
      NormalizeJoinsLines(s[k..]);
      assert NormalizeLineEndings(s) == "\n" + NormalizeLineEndings(s[k..]);
      assert Lines(s) == [""] + Lines(s[k..]);
      JoinLinesConsEmpty(Lines(s[k..]));
    } else {
      NormalizeJoinsLines(s[1..]);
      JoinLinesConsFirst(s[0], Lines(s[1..]));
    }
  }

  /** "a\r\nb" and "a\rb" both become "a\nb". */
  lemma NormalizeExamples()
    ensures NormalizeLineEndings("a\r\nb") == "a\nb"
    ensures NormalizeLineEndings("a\rb") == "a\nb"
  {
  }

  /** What a paste event carries: the plain text ("" when absent) and the decoded VS Code `mode`. */
  datatype ClipboardData = ClipboardData(plainText: string, vscodeMode: Option<string>)

  /**
   * The paste handler acts when the event has clipboard data, the cursor is
   * not already in a code block, and both the text and the language are
   * present and non-empty.
   */
  predicate PasteApplies(clipboard: Option<ClipboardData>, inCodeBlock: bool)
  {
    && clipboard.Some?
    && !inCodeBlock
    && clipboard.value.plainText != ""
    && clipboard.value.vscodeMode.Some?
    && clipboard.value.vscodeMode.value != ""
  }

  /**
   * The VS Code paste handler. When it applies it dispatches one transaction
   * that replaces the selection with a code block holding the normalised
   * text in the pasted language, moves the cursor back into that block when
   * the replacement left it outside (`selectionInCodeBlock` and
   * `selectionFrom` describe the transaction's selection after the
   * replacement), and marks the transaction as a paste.
   */
  method HandlePaste(clipboard: Option<ClipboardData>, inCodeBlock: bool,
                     selectionInCodeBlock: bool, selectionFrom: int)
    returns (handled: bool, dispatched: seq<Step>)
    ensures handled <==> PasteApplies(clipboard, inCodeBlock)
    ensures !handled ==> dispatched == []
    ensures handled ==>
      var data := clipboard.value;
      var block := ReplaceSelectionWithCodeBlock(data.vscodeMode.value, NormalizeLineEndings(data.plainText));
      && '\r' !in block.text
      && dispatched == [block]
                       + (if selectionInCodeBlock then []
                          else [TextSelectionNear(if selectionFrom - 2 > 0 then selectionFrom - 2 else 0)])
                       + [SetMeta("paste", true)]
  {
    if clipboard.None? {
      return false, [];
    }
    if inCodeBlock {
      return false, [];
    }
    var text := clipboard.value.plainText;
    var language := clipboard.value.vscodeMode;
    if text == "" || language.None? || language.value == "" {
      return false, [];
    }
    var tr := [ReplaceSelectionWithCodeBlock(language.value, NormalizeLineEndings(text))];
    if !selectionInCodeBlock {
      var near := if selectionFrom - 2 > 0 then selectionFrom - 2 else 0;
      tr := tr + [TextSelectionNear(near)];
    }
    tr := tr + [SetMeta("paste", true)];
    dispatched := tr;
    handled := true;
  }
}
