/**
 * The add and edit dialogs, reduced to what they hand back to the screen:
 * the three values they remember while open, how those start, how the
 * quantity field turns typed text into a number, and the item the add
 * button builds.
 */
module Dialogs {
  import opened QuantityText
  import opened ShoppingItems

  /** The title, description and quantity a dialog holds while it is open. */
  datatype Draft = Draft(title: string, description: string, quantity: Int32)

  /** An add dialog opens with an empty title and description, its quantity field showing "0". */
  function AddDraft(): (d: Draft)
    ensures d.title == "" && d.description == ""
    ensures QuantityFieldText(d) == "0"
  {
    Draft("", "", 0)
  }

  /** An edit dialog opens with the fields of the item being edited. */
  function EditDraft(item: ShoppingItem): Draft {
    Draft(item.title, item.description, item.quantity)
  }

  /**
   * The text a quantity field shows: `quantity.toString()`. It is a numeral,
   * and reading it back with `toIntOrNull() ?: 0` gives the quantity.
   */
  function QuantityFieldText(d: Draft): (s: string)
    ensures IsNumeral(s)
    ensures QuantityOf(s) == d.quantity
  {
    QuantityTextRoundTrip(d.quantity);
    IntToString(d.quantity)
  }

  /**
   * A change of a quantity field's text: `quantity = it.toIntOrNull() ?: 0`.
   * Title and description stay; a numeral that fits in an `Int` becomes the
   * quantity, and any other text sets it to 0.
   */
  function TypeQuantity(d: Draft, text: string): (e: Draft)
    ensures e.title == d.title && e.description == d.description
    ensures IsNumeral(text) && IntMin <= NumeralValue(text) <= IntMax ==> e.quantity == NumeralValue(text)
    ensures !(IsNumeral(text) && IntMin <= NumeralValue(text) <= IntMax) ==> e.quantity == 0
  {
    d.(quantity := QuantityOf(text))
  }

  /**
   * The item the add button hands over: `ShoppingItem(id, title, description, quantity)`.
   * It carries the given id, and an edit dialog opened on it starts from the same values.
   */
  function NewItem(id: int, d: Draft): (item: ShoppingItem)
    ensures item.id == id
    ensures EditDraft(item) == d
  {
    ShoppingItem(id, d.title, d.description, d.quantity)
  }

  /** Re-entering the text a quantity field shows leaves the dialog's values as they were. */
  lemma UntouchedQuantityFieldKeepsDraft(d: Draft)
    ensures TypeQuantity(d, QuantityFieldText(d)) == d
  {
  }

  /**
   * Opening the edit dialog on an item of a list with distinct ids and
   * saving at once (fields untouched) leaves the list unchanged.
   */
  lemma SaveUntouchedEditIsNoOp(s: seq<ShoppingItem>, item: ShoppingItem)
    requires IdsDistinct(s) && item in s
    ensures var d := EditDraft(item); EditById(s, item.id, d.title, d.description, d.quantity) == s
  {
    EditWithSameFieldsIsIdentity(s, item);
  }
}
