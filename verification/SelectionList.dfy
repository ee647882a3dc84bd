/**
  A list that grows at the end, with at most one selected position.

  The selection is a raw integer index: -1 means "nothing selected".
  The list never re-validates it: `Select` stores any index, and `Remove`
  leaves it where it was, so after removing the last element the index may
  dangle (equal the new size). Operations that read the selected element
  therefore carry their own preconditions instead of a class invariant.
*/
module SelectionLists {

  /** The value of a list with selection: elements in insertion order and the raw selected index. */
  datatype Sel<E> = Sel(elems: seq<E>, selected: int)

  /** The index `next` moves to: one step forward, or -1 at the end (no wrap-around). */
  function NextIndex(selected: int, size: nat): (r: int)
    ensures r == -1 || r == selected + 1
    ensures selected >= -1 ==> (r == -1 <==> selected >= size - 1)
    ensures selected == -1 && size > 0 ==> r == 0
    ensures -1 <= selected <= size ==> -1 <= r < size
  {
    if selected < size - 1 then selected + 1 else -1
  }

  /** The index `previous` moves to: one step back, or -1 at the front (no wrap-around). */
  function PreviousIndex(selected: int, size: nat): (r: int)
    ensures r == -1 || r == selected - 1
    ensures r == -1 <==> selected <= 0
    ensures -1 <= selected <= size ==> -1 <= r < size
  {
    if selected > 0 then selected - 1 else -1
  }

  /** `s` without its element at position `i`: the prefix is kept and the suffix shifts down by one. */
  function RemoveAt<E>(s: seq<E>, i: int): (r: seq<E>)
    requires 0 <= i < |s|
    ensures |r| == |s| - 1
    ensures forall k :: 0 <= k < i ==> r[k] == s[k]
    ensures forall k :: i <= k < |r| ==> r[k] == s[k + 1]
    ensures multiset(r) + multiset{s[i]} == multiset(s)
  {
    assert s == s[..i] + [s[i]] + s[i + 1..];
    s[..i] + s[i + 1..]
  }

  /** The value after `remove()`: the selected element is deleted, the index itself is not touched. */
  function RemoveSelected<E>(v: Sel<E>): (r: Sel<E>)
    requires v.selected == -1 || 0 <= v.selected < |v.elems|
    ensures r.selected == v.selected
    ensures v.selected == -1 ==> r == v
    ensures v.selected != -1 ==> |r.elems| == |v.elems| - 1
    ensures v.selected != -1 ==> multiset(r.elems) + multiset{v.elems[v.selected]} == multiset(v.elems)
  {
    if v.selected == -1 then v else Sel(RemoveAt(v.elems, v.selected), v.selected)
  }

  /** The index can dangle: removing the selected last element leaves the index equal to the new size. */
  lemma RemoveLastSelectedDangles<E>(v: Sel<E>)
    requires |v.elems| > 0 && v.selected == |v.elems| - 1
    ensures RemoveSelected(v).selected == |RemoveSelected(v).elems|
    ensures RemoveSelected(v).elems == v.elems[..|v.elems| - 1]
  {
  }

  class SelectionList<E> {
    var elems: seq<E>
    var selected: int

    /** A new list is empty and has nothing selected. */
    constructor ()
      ensures elems == [] && selected == -1
      ensures !SomeSelected()
    {
      elems := [];
      selected := -1;
    }

    function Value(): Sel<E>
      reads this
    {
      Sel(elems, selected)
    }

    function Size(): (n: nat)
      reads this
      ensures n == |Value().elems|
    {
      |elems|
    }

    /** Some element is selected exactly when the raw index is not the sentinel -1. */
    predicate SomeSelected()
      reads this
      ensures SomeSelected() <==> IndexSelected() != -1
    {
      selected != -1
    }

    /** The raw selected index, -1 when nothing is selected. */
    function IndexSelected(): (i: int)
      reads this
      ensures i == Value().selected
    {
      selected
    }

    /** The element at position `i` in insertion order. */
    function Get(i: int): (e: E)
      reads this
      requires 0 <= i < |elems|
      ensures e in elems
      ensures e == Value().elems[i]
    {
      elems[i]
    }

    /** The selected element, which needs an index inside the list. */
    function GetSelected(): (e: E)
      reads this
      requires 0 <= selected < |elems|
      ensures e == Get(IndexSelected())
      ensures e in elems
    {
      elems[selected]
    }

    /** Stores `i` as the selected index, with no bounds check; `Select(-1)` clears the selection. */
    method Select(i: int)
      modifies this`selected
      ensures selected == i
      ensures i == -1 ==> !SomeSelected()
    {
      selected := i;
    }

    /** Appends `e` at the end. Unlike the interface's documentation says, `e` is not selected. */
    method Add(e: E)
      modifies this`elems
      ensures elems == old(elems) + [e]
      ensures |elems| == old(|elems|) + 1 && elems[|elems| - 1] == e
      ensures selected == old(selected)
    {
      elems := elems + [e];
    }

    /** Deletes the selected element, if any; the selected index stays as it was. */
    method Remove()
      requires selected == -1 || 0 <= selected < |elems|
      modifies this`elems
      ensures Value() == RemoveSelected(old(Value()))
    {
      if SomeSelected() {
        elems := RemoveAt(elems, selected);
      }
    }

    /** Selects the following element, or clears the selection at the end. */
    method Next()
      modifies this`selected
      ensures selected == NextIndex(old(selected), |elems|)
    {
      if selected < |elems| - 1 {
        selected := selected + 1;
      } else {
        selected := -1;
      }
    }

    /** Selects the preceding element, or clears the selection at the front. */
    method Previous()
      modifies this`selected
      ensures selected == PreviousIndex(old(selected), |elems|)
    {
      if selected > 0 {
        selected := selected - 1;
      } else {
        selected := -1;
      }
    }
  }
}
