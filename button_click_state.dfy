/**
 * The button-click page: a counter, a name field, a list of trimmed items with
 * its input field, and a visibility toggle, each updated directly by an event
 * handler.
 */
module ButtonClickState {
  import opened Text
  import opened Lists

  /** An entry of the item list: text with no whitespace at either end and at least one character. */
  predicate IsStoredItem(s: string)
  {
    s != [] && IsTrimmed(s)
  }

  class ButtonClickPage {
    var count: int
    var name: string
    var items: seq<string>
    var newItem: string
    var isVisible: bool

    /** Only trimmed, non-blank text ever reaches the item list. */
    ghost predicate Valid()
      reads this
    {
      forall k :: 0 <= k < |items| ==> IsStoredItem(items[k])
    }

    /** The state on mount. */
    constructor ()
      ensures Valid()
      ensures count == 0 && name == "" && items == [] && newItem == "" && !isVisible
    {
      count, name, items, newItem, isVisible := 0, "", [], "", false;
    }

    /** The "+1" button: the count goes up by exactly one; nothing else changes. */
    method Increment()
      modifies this`count
      ensures count == old(count) + 1
    {
      count := count + 1;
    }

    /** The "-1" button: the count goes down by exactly one, below zero too; nothing else changes. */
    method Decrement()
      modifies this`count
      ensures count == old(count) - 1
    {
      count := count - 1;
    }

    /** The "Reset" button: the count is 0 whatever it was; nothing else changes. */
    method Reset()
      modifies this`count
      ensures count == 0
    {
      count := 0;
    }

    /** Typing in the name field stores the field's text as it is. */
    method HandleNameChange(value: string)
      modifies this`name
      ensures name == value
    {
      name := value;
    }

    /** The "Clear" button: the name is empty; nothing else changes. */
    method ClearName()
      modifies this`name
      ensures name == ""
    {
      name := "";
    }

    /** Typing in the new-item field stores the field's text as it is, untrimmed. */
    method SetNewItem(value: string)
      modifies this`newItem
      ensures newItem == value
    {
      newItem := value;
    }

    /**
     * The "Add" button (or Enter): when the field holds something besides
     * whitespace, its trimmed text goes at the end of the list and the field is
     * cleared; otherwise neither the list nor the field changes.
     */
    method AddItem()
      requires Valid()
      modifies this`items, this`newItem
      ensures Valid()
      ensures !AllWhitespace(old(newItem)) ==>
                items == old(items) + [Trim(old(newItem))] && newItem == ""
      ensures AllWhitespace(old(newItem)) ==>
                items == old(items) && newItem == old(newItem)
    {
      var trimmed := Trim(newItem);
      if trimmed != [] {
        items := items + [trimmed];
        newItem := "";
      }
    }

    /** An item's "Remove" button: the list without that position; any other index removes nothing. */
    method RemoveItem(index: int)
      requires Valid()
      modifies this`items
      ensures Valid()
      ensures items == RemoveAt(old(items), index)
    {
      RemoveAtSubset(items, index);
      items := RemoveAt(items, index);
    }

    /** The "Show/Hide" button flips the visibility; nothing else changes. */
    method ToggleVisibility()
      modifies this`isVisible
      ensures isVisible == !old(isVisible)
    {
      isVisible := !isVisible;
    }
  }

  /** Pressing "+1" then "-1" gives back the count the page started with. */
  method IncrementThenDecrement(page: ButtonClickPage)
    modifies page
    ensures page.count == old(page.count)
    ensures unchanged(page`name, page`items, page`newItem, page`isVisible)
  {
    page.Increment();
    page.Decrement();
  }

  /** Pressing "Show/Hide" twice gives back the visibility the page started with. */
  method ToggleTwice(page: ButtonClickPage)
    modifies page
    ensures page.isVisible == old(page.isVisible)
    ensures unchanged(page`count, page`name, page`items, page`newItem)
  {
    page.ToggleVisibility();
    page.ToggleVisibility();
  }

  /** A stored item is exactly what adding it back would store: trimming it changes nothing. */
  lemma StoredItemIsOwnTrim(s: string)
    requires IsStoredItem(s)
    ensures Trim(s) == s && !AllWhitespace(s)
  {
    TrimOfTrimmed(s);
  }
}
