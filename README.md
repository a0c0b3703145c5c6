# Shopping list screen: a Dafny model

This project models the state that the `MainScreen` composable of the
shopping-list app keeps across recompositions, and the event handlers that
change it. The state is five remembered variables: the add-dialog flag
`isAdding`, the edit-dialog flag `isEditing`, the next-id counter `index`
(starting at 1), the ordered `listOfShoppingItems`, and the nullable
`editingItem`. Each click handler becomes one atomic method of the class
`Screen.MainScreen`. The list values those handlers compute (`map` with
`copy` for an edit, `List.minus` for a delete, `plus` for an add) are pure
functions over `seq<ShoppingItem>` in module `ShoppingItems`. The quantity
fields of the two dialogs show `quantity.toString()` and read input back with
`toIntOrNull() ?: 0`; module `QuantityText` models both conversions. Module
`Dialogs` holds what a dialog hands back: its title, description and
quantity (`Draft`). A draft starts empty for an add (`AddDraft`) and from the
edited item for an edit (`EditDraft`).

The central invariant is `MainScreen.Valid()`:
- ids increase along the list, so no id occurs twice (`IssuedIdsAreDistinct`);
- every id lies in `[1, index)`;
- `isEditing` holds exactly when `editingItem` is present.

Every handler keeps this invariant. A deleted id is never handed out again,
because `index` only grows.

`MilkSession` in `main_screen.dfy` replays a short session on the screen.
It adds "Milk", edits its description and quantity, then deletes it.

`QuantityTyping` in the same file types "2" and then "two" into a fresh
add dialog's quantity field. The first gives 2 and the second gives 0.

Delete removes the first element equal to the clicked item, not the entry
with a given id. It shortens the list only when that item is present.

`AddDialogShown` (line 64), `EditDialogShown` (line 76), `EditDraft`
(lines 220-222) and `EditDialogDraft` are definitions without a contract of
their own. They appear in the rows of the members whose contracts use them.

## Model

| member | source | states |
|---|---|---|
| QuantityText.ToIntOrNull | app/src/main/java/com/example/shoppinglistthreeofour/MainScreen.kt:248 | `toIntOrNull()` yields a number exactly when the text is an optional sign followed by digits and its value fits in an `Int`; that number is then the text's value |
| QuantityText.QuantityOf | app/src/main/java/com/example/shoppinglistthreeofour/MainScreen.kt:199 | `toIntOrNull() ?: 0`: non-numeric text and out-of-range numerals give 0; an in-range numeral gives its value |
| QuantityText.NatToDigits | app/src/main/java/com/example/shoppinglistthreeofour/MainScreen.kt:198 | the digits shown for a non-negative quantity are non-empty, all decimal, without leading zero, and read back as that number |
| QuantityText.IntToString | app/src/main/java/com/example/shoppinglistthreeofour/MainScreen.kt:247 | `Int.toString()` produces a numeral whose value is the number; it starts with a minus sign exactly when the number is negative and never with `+`; its digits start with 0 only when the whole text is "0" |
| QuantityText.QuantityTextRoundTrip | app/src/main/java/com/example/shoppinglistthreeofour/MainScreen.kt:196-199 | parsing the text a quantity field shows gives back the same quantity, for every `Int` |
| ShoppingItems.EditById | app/src/main/java/com/example/shoppinglistthreeofour/MainScreen.kt:80-82 | the mapped list has the same length, order and ids; items with the edited id carry the new title, description and quantity; all others are unchanged |
| ShoppingItems.IndexOf | app/src/main/java/com/example/shoppinglistthreeofour/MainScreen.kt:108 | the position `List.minus` removes holds the element, and no earlier position does |
| ShoppingItems.RemoveFirst | app/src/main/java/com/example/shoppinglistthreeofour/MainScreen.kt:108 | `list - element` is the list with its first occurrence of the element cut out; a list without the element is returned unchanged |
| ShoppingItems.IssuedIdsAreDistinct | app/src/main/java/com/example/shoppinglistthreeofour/MainScreen.kt:66-70 | ids that increase along the list are pairwise distinct (the invariant below the counter implies the distinctness the screen relies on) |
| ShoppingItems.AppendKeepsIds | app/src/main/java/com/example/shoppinglistthreeofour/MainScreen.kt:69-70 | appending an item with id `index` and incrementing `index` keeps the id invariant |
| ShoppingItems.EditKeepsIds | app/src/main/java/com/example/shoppinglistthreeofour/MainScreen.kt:80-82 | the edit's `map`/`copy` keeps the id invariant |
| ShoppingItems.DropKeepsIds | app/src/main/java/com/example/shoppinglistthreeofour/MainScreen.kt:108 | cutting any one position out of the list keeps the id invariant |
| ShoppingItems.RemoveKeepsIds | app/src/main/java/com/example/shoppinglistthreeofour/MainScreen.kt:107-109 | a delete keeps the id invariant |
| ShoppingItems.RemoveFirstMultiset | app/src/main/java/com/example/shoppinglistthreeofour/MainScreen.kt:107-109 | a delete removes exactly one copy of the clicked item when present (one element shorter, multiset minus that item) |
| ShoppingItems.RemoveFirstLeavesNoCopy | app/src/main/java/com/example/shoppinglistthreeofour/MainScreen.kt:107-109 | with distinct ids no copy of the clicked item remains after a delete |
| ShoppingItems.EditTouchesOnlyMatch | app/src/main/java/com/example/shoppinglistthreeofour/MainScreen.kt:79-82 | with distinct ids an edit changes only the position holding the edited id, and changes it to the copy with the new fields |
| ShoppingItems.EditWithSameFieldsIsIdentity | app/src/main/java/com/example/shoppinglistthreeofour/MainScreen.kt:81 | copying an item's own fields back onto it leaves the list unchanged |
| Dialogs.AddDraft | app/src/main/java/com/example/shoppinglistthreeofour/MainScreen.kt:171-173 | an add dialog opens with an empty title and description, and its quantity field shows "0" |
| Dialogs.QuantityFieldText | app/src/main/java/com/example/shoppinglistthreeofour/MainScreen.kt:198 | the text a quantity field shows is a numeral that `toIntOrNull() ?: 0` reads back as the quantity |
| Dialogs.NewItem | app/src/main/java/com/example/shoppinglistthreeofour/MainScreen.kt:209 | the item the add button builds carries the given id, and an edit dialog opened on it (`EditDraft`, the pre-fill of lines 220-222) starts from exactly the add dialog's values |
| Dialogs.TypeQuantity | app/src/main/java/com/example/shoppinglistthreeofour/MainScreen.kt:245-249 | editing the quantity field keeps title and description; an in-range numeral becomes the quantity, and any other text sets it to 0 |
| Dialogs.UntouchedQuantityFieldKeepsDraft | app/src/main/java/com/example/shoppinglistthreeofour/MainScreen.kt:196-199 | re-entering the shown quantity text leaves the dialog's values unchanged |
| Dialogs.SaveUntouchedEditIsNoOp | app/src/main/java/com/example/shoppinglistthreeofour/MainScreen.kt:220-222 | an edit dialog pre-filled from a listed item and saved without changes leaves the list unchanged |
| Screen.MainScreen.constructor | app/src/main/java/com/example/shoppinglistthreeofour/MainScreen.kt:52-56 | initial state: not adding, not editing, `index` 1, empty list, no edited item; the invariant holds |
| Screen.MainScreen.OpenAdd | app/src/main/java/com/example/shoppinglistthreeofour/MainScreen.kt:90-92 | sets `isAdding`, so `AddDialogShown` (the `if (isAdding)` of line 64) holds; nothing else changes |
| Screen.MainScreen.DismissAdd | app/src/main/java/com/example/shoppinglistthreeofour/MainScreen.kt:67 | clears `isAdding`, so `AddDialogShown` is false; nothing else changes |
| Screen.MainScreen.CommitAdd | app/src/main/java/com/example/shoppinglistthreeofour/MainScreen.kt:68-72 | appends `ShoppingItem(old index, title, description, quantity)` behind the unchanged earlier items; `index` grows by exactly 1; the new id exceeds every earlier id; the add dialog closes (`AddDialogShown` is false); the edit state is untouched |
| Screen.MainScreen.OpenEdit | app/src/main/java/com/example/shoppinglistthreeofour/MainScreen.kt:103-106 | sets `editingItem` and `isEditing`, so `EditDialogShown` (the condition of line 76) holds; the dialog's values start as `EditDraft` of the item, its title, description and quantity (lines 220-222); nothing else changes |
| Screen.MainScreen.DismissEdit | app/src/main/java/com/example/shoppinglistthreeofour/MainScreen.kt:86 | clears `isEditing` and `editingItem`, so `EditDialogShown` is false; the list, `index` and `isAdding` are untouched |
| Screen.MainScreen.CommitEdit | app/src/main/java/com/example/shoppinglistthreeofour/MainScreen.kt:79-85 | the list becomes the by-id edit of the old list for the edited item's id; the edit dialog closes (`EditDialogShown` is false) and `editingItem` is cleared; `index` and `isAdding` are untouched |
| Screen.MainScreen.Delete | app/src/main/java/com/example/shoppinglistthreeofour/MainScreen.kt:107-109 | the list becomes `list - element`: one element shorter when the element was present, with no copy of it left; `index` and both dialogs are untouched, so ids are not reused |

## Left out

- Compose rendering and layout (`Column`, `LazyColumn`, `Card`, `TextField`, `BasicAlertDialog`, `ShoppingItemCard`, `Preview`): these are presentation and carry no behaviour to prove.
- `remember` and recomposition: each handler is one atomic method. The model does not capture that a modal dialog blocks clicks on the list behind it, so any method may be called in any order.
- The add dialog takes its `id` parameter from `index` when it is composed. Recomposition keeps the two equal, so `CommitAdd` reads `index` directly.
- The `!!` on `editingItem` in the edit handler: `CommitEdit` requires an item to edit instead of modelling the `NullPointerException`.
- Title and description editing keystroke by keystroke: a `Draft` holds only the values the dialog finally hands over. The quantity field's coercion (`TypeQuantity`) is modelled because it changes the value.
- `ShoppingItem` is a Kotlin data class whose file is not part of this model. Its field order comes from the constructor call and `copy` in `MainScreen.kt`.
- QuantityText.ToIntOrNull: accepts ASCII digits only. Kotlin's `toIntOrNull` also accepts other Unicode decimal digits. Text of that kind is not modelled.
- Screen.MainScreen.CommitAdd: `index` is an unbounded integer. Wrap-around of the 32-bit `index++` after 2^31 - 1 additions is not modelled.
