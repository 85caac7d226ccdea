/**
 * The language picker the toolbar shows: the search value, the list of
 * languages filtered by it, committing a language with Enter, and the
 * `aria-selected`/`tabIndex` of each listed item.
 *
 * The list of languages and the active and selected indices come from the
 * surrounding list navigation and are inputs; `onItemClick` is recorded as
 * the languages passed to it.
 */
module CodeBlockToolbar {
  import opened CodeBlockTypes

  const EnterKey: string := "Enter"

  /** `sub` occurs in `s` starting at index `i`. */
  predicate OccursAt(s: string, sub: string, i: int)
  {
    0 <= i && i + |sub| <= |s| && s[i..i + |sub|] == sub
  }

  /** `s` contains `sub` as a case-sensitive substring. */
  ghost predicate Contains(s: string, sub: string)
  {
    exists i :: OccursAt(s, sub, i)
  }

  /** The first occurrence of `sub` in `s` at index `from` or later, or -1. */
  function IndexOfFrom(s: string, sub: string, from: nat): (r: int)
    ensures r == -1 || from <= r
    ensures r >= 0 ==> OccursAt(s, sub, r) && forall j :: from <= j < r ==> !OccursAt(s, sub, j)
    ensures r == -1 ==> forall j :: from <= j ==> !OccursAt(s, sub, j)
    decreases |s| - from
  {
    if from + |sub| > |s| then -1
    else if s[from..from + |sub|] == sub then from
    else IndexOfFrom(s, sub, from + 1)
  }

  /** JavaScript's `String.prototype.indexOf`: the first occurrence, or -1. */
  function IndexOf(s: string, sub: string): (r: int)
    ensures -1 <= r
    ensures r >= 0 ==> OccursAt(s, sub, r) && forall j :: 0 <= j < r ==> !OccursAt(s, sub, j)
    ensures r == -1 <==> !Contains(s, sub)
  {
    IndexOfFrom(s, sub, 0)
  }

  /** `renderedItems`: the items that contain the search value, in their order. */
  function RenderedItems(items: seq<string>, value: string): (r: seq<string>)
    ensures |r| <= |items|
    ensures forall x :: x in r <==> x in items && Contains(x, value)
  {
    if items == [] then []
    else
      var rest := RenderedItems(items[1..], value);
      if IndexOf(items[0], value) != -1 then [items[0]] + rest else rest
  }

  /** `a` can be obtained from `b` by deleting elements. */
  predicate IsSubsequence(a: seq<string>, b: seq<string>)
    decreases |b|
  {
    a == [] || (b != [] && if a[0] == b[0] then IsSubsequence(a[1..], b[1..]) else IsSubsequence(a, b[1..]))
  }

  /** The filter keeps the items' order: the rendered list is a subsequence of the items. */
  lemma {:induction false} RenderedItemsKeepOrder(items: seq<string>, value: string)
    ensures IsSubsequence(RenderedItems(items, value), items)
  {
    if items != [] {
      var r := RenderedItems(items, value);
      var rest := RenderedItems(items[1..], value);
      RenderedItemsKeepOrder(items[1..], value);
      if IndexOf(items[0], value) != -1 {
        assert r[0] == items[0] && r[1..] == rest;
      } else if r != [] {
        assert r == rest;
        assert r[0] in rest;
        assert r[0] != items[0];
      }
    }
  }

  /** Each language is rendered as often as it is listed if it contains the value, and never otherwise. */
  lemma {:induction false} RenderedItemsCounts(items: seq<string>, value: string, x: string)
    ensures multiset(RenderedItems(items, value))[x] ==
            if Contains(x, value) then multiset(items)[x] else 0
  {
    if items != [] {
      RenderedItemsCounts(items[1..], value, x);
      assert items == [items[0]] + items[1..];
      assert multiset(items) == multiset{items[0]} + multiset(items[1..]);
    }
  }

  /** With an empty search value every language is rendered. */
  lemma {:induction false} EmptyValueRendersAll(items: seq<string>)
    ensures RenderedItems(items, "") == items
  {
    if items != [] {
      assert OccursAt(items[0], "", 0);
      EmptyValueRendersAll(items[1..]);
      assert items == [items[0]] + items[1..];
    }
  }

  /** Searching "ja" keeps "javascript" and "java" and drops "python". */
  lemma FilterExample()
    ensures RenderedItems(["python", "javascript", "java"], "ja") == ["javascript", "java"]
  {
    assert OccursAt("javascript", "ja", 0);
    assert OccursAt("java", "ja", 0);
    assert !Contains("python", "ja") by {
      forall i | 0 <= i <= 4 ensures !OccursAt("python", "ja", i) {
        assert "python"[i..i + 2][0] == "python"[i] && "python"[i] in "python";
        assert 'j' !in "python";
      }
    }
    var items := ["python", "javascript", "java"];
    assert items[1..] == ["javascript", "java"];
    assert items[1..][1..] == ["java"];
    assert ["java"][1..] == [];
  }

  /**
   * What Enter commits: the rendered item at the active index, when there is
   * an active index and the item there exists and is not empty (an empty
   * string is falsy).
   */
  function EnterCommit(key: string, activeIndex: Option<int>, rendered: seq<string>): (c: Option<string>)
    ensures c.Some? <==>
      key == EnterKey && activeIndex.Some? && 0 <= activeIndex.value < |rendered| && rendered[activeIndex.value] != ""
    ensures c.Some? ==> c.value in rendered && c.value != "" && c.value == rendered[activeIndex.value]
  {
    if key == EnterKey && activeIndex.Some? && 0 <= activeIndex.value < |rendered| && rendered[activeIndex.value] != "" then
      Some(rendered[activeIndex.value])
    else None
  }

  /** A language committed with Enter is a listed language containing the search value. */
  lemma CommittedIsListedMatch(key: string, activeIndex: Option<int>, items: seq<string>, value: string)
    requires EnterCommit(key, activeIndex, RenderedItems(items, value)).Some?
    ensures var c := EnterCommit(key, activeIndex, RenderedItems(items, value)).value;
      c in items && Contains(c, value)
  {
  }

  /** An item's `aria-selected`: whether it is active when some item is, else whether it is selected. */
  function AriaSelected(index: int, activeIndex: Option<int>, selectedIndex: Option<int>): bool
  {
    if activeIndex.Some? then activeIndex.value == index else selectedIndex == Some(index)
  }

  /** An item's `tabIndex`. */
  function TabIndex(index: int, activeIndex: Option<int>): int
  {
    if activeIndex == Some(index) then 0 else -1
  }

  /** The indices, among `n` rendered items, whose `aria-selected` is true: at most one. */
  function SelectedItems(n: nat, activeIndex: Option<int>, selectedIndex: Option<int>): (r: set<nat>)
    ensures forall i: nat :: i in r <==> i < n && AriaSelected(i, activeIndex, selectedIndex)
    ensures |r| <= 1
    ensures activeIndex.Some? && 0 <= activeIndex.value < n ==> r == {activeIndex.value as nat}
  {
    var r := set i: nat | i < n && AriaSelected(i, activeIndex, selectedIndex);
    var k := if activeIndex.Some? then activeIndex.value else if selectedIndex.Some? then selectedIndex.value else -1;
    assert forall i: nat :: i in r ==> i == k;
    if k >= 0 && k in r then
      assert r == {k as nat};
      r
    else
      assert r == {};
      r
  }

  /** The indices, among `n` rendered items, with `tabIndex` 0: the active one, if it is rendered. */
  function TabbableItems(n: nat, activeIndex: Option<int>): (r: set<nat>)
    ensures forall i: nat :: i in r <==> i < n && TabIndex(i, activeIndex) == 0
    ensures |r| <= 1
    ensures r == {} <==> !(activeIndex.Some? && 0 <= activeIndex.value < n)
  {
    var r := set i: nat | i < n && TabIndex(i, activeIndex) == 0;
    if activeIndex.Some? && 0 <= activeIndex.value < n then
      assert r == {activeIndex.value as nat};
      r
    else
      assert r == {};
      r
  }

  /** The toolbar component's local state and what it has passed to `onItemClick`. */
  class CodeBlockToolbarComponent {
    var value: string
    /** The languages passed to `onItemClick`, in order. */
    var clicks: seq<string>

    constructor ()
      ensures value == "" && clicks == []
    {
      value := "";
      clicks := [];
    }

    /** The input's `onChange`: the search value becomes the input's text. */
    method SetValue(val: string)
      modifies this
      ensures value == val && clicks == old(clicks)
    {
      value := val;
    }

    /**
     * `handleKeyDown` on one element: Enter stops propagation and commits
     * what `EnterCommit` says, if an `onItemClick` is given; other keys do
     * nothing.
     */
    method HandleKeyDown(key: string, activeIndex: Option<int>, items: seq<string>, hasOnItemClick: bool)
      returns (stopped: bool)
      modifies this
      ensures stopped <==> key == EnterKey
      ensures value == old(value)
      ensures clicks == old(clicks) +
        if hasOnItemClick && EnterCommit(key, activeIndex, RenderedItems(items, value)).Some? then
          [EnterCommit(key, activeIndex, RenderedItems(items, value)).value]
        else []
    {
      stopped := false;
      if key == EnterKey {
        stopped := true;
        var renderedItems := RenderedItems(items, value);
        if activeIndex.Some? && 0 <= activeIndex.value < |renderedItems| && renderedItems[activeIndex.value] != "" {
          if hasOnItemClick {
            clicks := clicks + [renderedItems[activeIndex.value]];
          }
        }
      }
    }

    /**
     * A key pressed in the search input. The input and the element around it
     * both listen with `handleKeyDown`; the outer one runs only when the
     * inner one did not stop propagation. So Enter commits at most once, and
     * no other key commits anything.
     */
    method KeyDownInInput(key: string, activeIndex: Option<int>, items: seq<string>, hasOnItemClick: bool)
      modifies this
      ensures value == old(value)
      ensures clicks == old(clicks) +
        if hasOnItemClick && EnterCommit(key, activeIndex, RenderedItems(items, value)).Some? then
          [EnterCommit(key, activeIndex, RenderedItems(items, value)).value]
        else []
      ensures key != EnterKey ==> clicks == old(clicks)
    {
      var stopped := HandleKeyDown(key, activeIndex, items, hasOnItemClick);
      if !stopped {
        stopped := HandleKeyDown(key, activeIndex, items, hasOnItemClick);
      }
    }
  }
}
