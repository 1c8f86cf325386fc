/**
 * The Accordion example component, written alike for React, Preact and
 * Solid: a list of open item indexes, replaced on each click by a toggle
 * that either keeps several items open or at most one, and an item view
 * that is expanded exactly when its index is in the list.
 */
module Accordion {
  import opened Wrappers

  /** An accordion item as the stories pass it. */
  datatype Item = Item(title: string, content: string)

  /** One rendered item: its header, `aria-expanded`, and the content shown only when expanded. */
  datatype ItemView = ItemView(title: string, expanded: bool, content: Option<string>)

  predicate Distinct(s: seq<nat>)
  {
    forall i, j :: 0 <= i < j < |s| ==> s[i] != s[j]
  }

  /** `prev.filter((i) => i !== index)`. */
  function Without(prev: seq<nat>, index: nat): (r: seq<nat>)
    ensures forall j :: j in r <==> j in prev && j != index
    ensures |r| <= |prev|
  {
    if prev == [] then []
    else if prev[0] == index then Without(prev[1..], index)
    else [prev[0]] + Without(prev[1..], index)
  }

  /** The filter keeps a list free of repeats. */
  lemma {:induction false} WithoutDistinct(prev: seq<nat>, index: nat)
    requires Distinct(prev)
    ensures Distinct(Without(prev, index))
  {
    if prev != [] {
      var rest := Without(prev[1..], index);
      WithoutDistinct(prev[1..], index);
      if prev[0] != index {
        assert prev[0] !in prev[1..] by {
          forall k | 0 <= k < |prev[1..]| ensures prev[1..][k] != prev[0] {
            assert prev[1..][k] == prev[k + 1];
          }
        }
        var r := [prev[0]] + rest;
        forall i, j | 0 <= i < j < |r| ensures r[i] != r[j] {
          if i == 0 {
            assert r[j] == rest[j - 1] && rest[j - 1] in rest;
          } else {
            assert r[i] == rest[i - 1] && r[j] == rest[j - 1];
          }
        }
      }
    }
  }

  /** A list without `index` is left as it is by the filter. */
  lemma {:induction false} WithoutAbsent(prev: seq<nat>, index: nat)
    requires index !in prev
    ensures Without(prev, index) == prev
  {
    if prev != [] {
      assert prev[0] != index;
      WithoutAbsent(prev[1..], index);
    }
  }

  /** The updater passed to `setOpenIndexes` in `toggleItem`. */
  function Toggled(prev: seq<nat>, index: nat, allowMultiple: bool): seq<nat>
  {
    if allowMultiple then
      if index in prev then Without(prev, index) else prev + [index]
    else
      if index in prev then [] else [index]
  }

  /**
   * A toggle flips the membership of its index and, with several items
   * allowed, no other; with one item allowed at most one stays open. No
   * index is ever listed twice.
   */
  lemma ToggledFacts(prev: seq<nat>, index: nat, allowMultiple: bool)
    requires Distinct(prev)
    ensures var r := Toggled(prev, index, allowMultiple);
      Distinct(r)
      && (index in r <==> index !in prev)
      && (allowMultiple ==> forall j :: j != index ==> (j in r <==> j in prev))
      && (!allowMultiple ==> |r| <= 1 && (r == [] <==> index in prev))
  {
    WithoutDistinct(prev, index);
  }

  /**
   * With several items allowed, opening and closing an item restores the
   * list exactly; closing and reopening an open one restores its members,
   * with that item moved to the end.
   */
  lemma ToggleTwice(prev: seq<nat>, index: nat)
    requires Distinct(prev)
    ensures index !in prev ==> Toggled(Toggled(prev, index, true), index, true) == prev
    ensures index in prev ==> Toggled(Toggled(prev, index, true), index, true) == Without(prev, index) + [index]
  {
    if index !in prev {
      WithoutAbsent(prev, index);
      WithoutAppended(prev, index);
    }
  }

  /** Filtering out an appended index gives back the list before it. */
  lemma {:induction false} WithoutAppended(prev: seq<nat>, index: nat)
    requires index !in prev
    ensures Without(prev + [index], index) == prev
  {
    if prev == [] {
      assert [] + [index] == [index];
    } else {
      assert (prev + [index])[1..] == prev[1..] + [index];
      WithoutAppended(prev[1..], index);
    }
  }

  /** The component's state: `useState([])` in React and Preact, `createSignal([])` in Solid. */
  class AccordionState {
    var openIndexes: seq<nat>

    ghost predicate Valid()
      reads this
    {
      Distinct(openIndexes)
    }

    /** Every item starts closed. */
    constructor ()
      ensures openIndexes == [] && Valid()
    {
      openIndexes := [];
    }

    /** `openIndexes.includes(index)`; Solid's `isOpen`. */
    predicate IsOpen(index: nat)
      reads this
    {
      index in openIndexes
    }

    /** `toggleItem`: the mode is read when the item is clicked. */
    method ToggleItem(index: nat, allowMultiple: bool)
      requires Valid()
      modifies this
      ensures Valid()
      ensures openIndexes == Toggled(old(openIndexes), index, allowMultiple)
      ensures IsOpen(index) <==> !old(IsOpen(index))
      ensures allowMultiple ==> forall j :: j != index ==> (IsOpen(j) <==> old(IsOpen(j)))
      ensures !allowMultiple ==> |openIndexes| <= 1
    {
      ToggledFacts(openIndexes, index, allowMultiple);
      openIndexes := Toggled(openIndexes, index, allowMultiple);
    }
  }

  /** The items as rendered: each header with `aria-expanded`, and the content of the open ones. */
  function View(items: seq<Item>, openIndexes: seq<nat>): (r: seq<ItemView>)
    ensures |r| == |items|
    ensures forall k :: 0 <= k < |r| ==> r[k].title == items[k].title
    ensures forall k :: 0 <= k < |r| ==> (r[k].expanded <==> k in openIndexes)
    ensures forall k :: 0 <= k < |r| ==> r[k].content == (if k in openIndexes then Some(items[k].content) else None)
  {
    seq(|items|, k requires 0 <= k < |items| =>
      ItemView(items[k].title, k in openIndexes, if k in openIndexes then Some(items[k].content) else None))
  }

  /** Preact's `items.map(item => ({ ...item }))`: a copy of each item, in order. */
  function CloneItems(items: seq<Item>): (r: seq<Item>)
    ensures |r| == |items| && forall k :: 0 <= k < |r| ==> r[k] == items[k]
  {
    if items == [] then [] else [Item(items[0].title, items[0].content)] + CloneItems(items[1..])
  }

  /** A click on a closed item in one-at-a-time mode shows that item alone. */
  lemma SingleModeShowsOne(items: seq<Item>, prev: seq<nat>, index: nat)
    requires index < |items| && index !in prev
    ensures var view := View(items, Toggled(prev, index, false));
      forall k :: 0 <= k < |view| ==> (view[k].expanded <==> k == index)
  {
  }
}
