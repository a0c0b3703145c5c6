/**
 * The state `MainScreen` remembers across recompositions and the event
 * handlers that reassign it. Each handler is one atomic method; the new
 * list values are the functions of module ShoppingItems.
 */
module Screen {
  import opened Wrappers
  import opened QuantityText
  import opened ShoppingItems
  import opened Dialogs

  class MainScreen {
    /** Whether the add dialog is shown. */
    var isAdding: bool
    /** Whether the edit dialog is requested. */
    var isEditing: bool
    /** The id the next added item receives. */
    var index: int
    /** `listOfShoppingItems`, in display order. */
    var items: seq<ShoppingItem>
    /** The item the edit dialog works on, or none. */
    var editingItem: Option<ShoppingItem>

    /**
     * What every handler keeps: ids increase along the list and lie in
     * [1, index), and the edit flag is set exactly when there is an item to edit.
     */
    ghost predicate Valid()
      reads this
    {
      && 1 <= index
      && IdsIssuedBelow(items, index)
      && (isEditing <==> editingItem.Some?)
    }

    /** The add dialog is composed when `isAdding` holds. */
    predicate AddDialogShown()
      reads this
    {
      isAdding
    }

    /** The edit dialog is composed when `isEditing` holds and there is an item. */
    predicate EditDialogShown()
      reads this
    {
      isEditing && editingItem.Some?
    }

    /** The values an edit dialog opens with: those of `editingItem`. */
    function EditDialogDraft(): Draft
      reads this
      requires EditDialogShown()
    {
      EditDraft(editingItem.value)
    }

    /** The remembered state on first composition. */
    constructor ()
      ensures Valid()
      ensures !isAdding && !isEditing && index == 1 && items == [] && editingItem == None
    {
      isAdding := false;
      isEditing := false;
      index := 1;
      items := [];
      editingItem := None;
    }

    /** The add button: `isAdding = true`. */
    method OpenAdd()
      requires Valid()
      modifies this
      ensures Valid() && AddDialogShown()
      ensures isAdding
      ensures isEditing == old(isEditing) && index == old(index)
      ensures items == old(items) && editingItem == old(editingItem)
    {
      isAdding := true;
    }

    /** The add dialog's cancel button or a dismiss request: `isAdding = false`. */
    method DismissAdd()
      requires Valid()
      modifies this
      ensures Valid() && !AddDialogShown()
      ensures !isAdding
      ensures isEditing == old(isEditing) && index == old(index)
      ensures items == old(items) && editingItem == old(editingItem)
    {
      isAdding := false;
    }

    /**
     * The add dialog's confirm button: the completion handler appends
     * `ShoppingItem(index, ...)` built from the dialog's values and bumps
     * `index`, then the dialog is dismissed. The new id is larger than every
     * id already in the list.
     */
    method CommitAdd(d: Draft)
      requires Valid()
      modifies this
      ensures Valid() && !AddDialogShown()
      ensures items == old(items) + [NewItem(old(index), d)]
      ensures index == old(index) + 1
      ensures forall i :: 0 <= i < |old(items)| ==> old(items)[i].id < items[|items| - 1].id
      ensures !isAdding
      ensures isEditing == old(isEditing) && editingItem == old(editingItem)
    {
      AppendKeepsIds(items, index, NewItem(index, d));
      items := items + [NewItem(index, d)];
      index := index + 1;
      isAdding := false;
      DismissAdd();
    }

    /** An item's edit button: `editingItem = element; isEditing = true`. */
    method OpenEdit(element: ShoppingItem)
      requires Valid()
      modifies this
      ensures Valid() && EditDialogShown()
      ensures editingItem == Some(element) && isEditing
      ensures EditDialogDraft() == EditDraft(element)
      ensures isAdding == old(isAdding) && index == old(index) && items == old(items)
    {
      editingItem := Some(element);
      isEditing := true;
    }

    /** The edit dialog's cancel button or a dismiss request. */
    method DismissEdit()
      requires Valid()
      modifies this
      ensures Valid() && !EditDialogShown()
      ensures !isEditing && editingItem == None
      ensures isAdding == old(isAdding) && index == old(index) && items == old(items)
    {
      isEditing := false;
      editingItem := None;
    }

    /**
     * The edit dialog's save button: every item whose id is that of
     * `editingItem` takes the dialog's title, description and quantity, then
     * the dialog closes. The caller needs an item to edit (`editingItem!!`).
     */
    method CommitEdit(d: Draft)
      requires Valid() && editingItem.Some?
      modifies this
      ensures Valid() && !EditDialogShown()
      ensures items == EditById(old(items), old(editingItem).value.id, d.title, d.description, d.quantity)
      ensures !isEditing && editingItem == None
      ensures isAdding == old(isAdding) && index == old(index)
    {
      EditKeepsIds(items, index, editingItem.value.id, d.title, d.description, d.quantity);
      items := EditById(items, editingItem.value.id, d.title, d.description, d.quantity);
      isEditing := false;
      editingItem := None;
      DismissEdit();
    }

    /**
     * An item's delete button: `listOfShoppingItems -= element`. `index` is
     * left alone, so a deleted id is never handed out again.
     */
    method Delete(element: ShoppingItem)
      requires Valid()
      modifies this
      ensures Valid()
      ensures items == RemoveFirst(old(items), element)
      ensures element in old(items) ==> |items| == |old(items)| - 1
      ensures element !in items
      ensures multiset(items) == multiset(old(items)) - multiset{element}
      ensures isAdding == old(isAdding) && isEditing == old(isEditing)
      ensures index == old(index) && editingItem == old(editingItem)
    {
      var remaining := RemoveFirst(items, element);
      assert IdsIssuedBelow(remaining, index) by {
        RemoveKeepsIds(items, index, element);
      }
      assert element !in remaining by {
        IssuedIdsAreDistinct(items, index);
        RemoveFirstLeavesNoCopy(items, element);
      }
      assert (element in items ==> |remaining| == |items| - 1)
        && multiset(remaining) == multiset(items) - multiset{element} by {
        RemoveFirstMultiset(items, element);
      }
      items := remaining;
    }
  }

  /**
   * A session on the screen: add "Milk", change its description and
   * quantity, delete it.
   */
  method MilkSession()
  {
    var screen := new MainScreen();
    screen.OpenAdd();
    var draft := Draft("Milk", "2%", 2);
    screen.CommitAdd(draft);
    var milk := ShoppingItem(1, "Milk", "2%", 2);
    assert screen.items == [milk];
    screen.OpenEdit(milk);
    screen.CommitEdit(Draft("Milk", "Whole", 3));
    var wholeMilk := ShoppingItem(1, "Milk", "Whole", 3);
    assert |screen.items| == 1 && screen.items[0] == wholeMilk;
    screen.Delete(wholeMilk);
    assert |screen.items| == 0;
    assert screen.index == 2;
  }

  /** Typing "2" into a fresh add dialog's quantity field gives 2; typing "two" gives 0. */
  method QuantityTyping()
  {
    var draft := TypeQuantity(AddDraft(), "2");
    assert draft.quantity == 2 by {
      assert Unsigned("2") == "2" && DigitsValue("2") == 2;
    }
    var other := TypeQuantity(draft, "two");
    assert other.quantity == 0 by {
      assert !IsDigit("two"[0]);
    }
  }
}
