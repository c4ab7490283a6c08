# Inventory manager: store and screen logic in Dafny

This project models the state core of a small Kotlin Compose inventory
manager. The screen lists inventory items and lets the user add, delete and
step the quantity of each one. The model covers three parts:

- the `InventoryItem` record: five fields, structural equality, `copy`;
- the `InventoryViewModel` store: an ordered item list seeded with five
  samples and changed only by `addItem` (append), `removeItem` (filter out
  an id) and `updateQuantity` (replace the quantity of every item with an
  id);
- the pure decisions of `App.kt`: what each card button asks the store to
  do, which item the add dialog's confirm button emits, and how the
  `showAddDialog` flag and the dialog's field texts change.

Modules follow the Kotlin packages. `Models` is the entity and `ViewModels`
is the store. `App` holds the screen decisions. `KotlinTypes` holds the
standard-library pieces the code leans on:

- `Int` as a 32-bit wrapping `Int32`;
- `Double` as its IEEE 754 bit pattern, with no arithmetic;
- `Int.toString()` of a non-negative number;
- `isBlank`/`ifBlank` over the JVM `Char.isWhitespace` set.

`Wrappers` holds the `Option` used for Kotlin's nullable results.

The store is a plain `seq<InventoryItem>`. Each operation is a pure function
from the old list to the new one. The screen is a `Screen` value: the list,
plus the dialog's form texts while the dialog is shown. `Step` maps one user
event to the next screen. Two inputs are passed in as parameters, because
the model cannot compute them:

- the random id draw `(0..999999).random()`;
- the parsers `toIntOrNull`/`toDoubleOrNull`, as a `Parsers` value.

The code enforces neither non-negative quantities nor unique ids, and the
model keeps it that way:

- `updateQuantity` stores any `Int`. The add form stores whatever
  `toIntOrNull` returns, negatives included. `addItem` accepts a duplicate
  id.
- The "+" button computes `quantity + 1` on a 32-bit `Int`, so it wraps at
  `Int.MAX_VALUE`. `IncrementWrapsAtMax` and `IncrementBreaksNonNegative`
  state this, and `ConfirmBreaksNonNegative` shows the negative-parse path.
  `StepKeepsNonNegative` shows these two paths are the only ones that can
  make a quantity negative.
- After an update exactly one item carries the id only when the id was
  unique beforehand (`UpdateQuantityUnique`). Otherwise every item with that
  id is updated.

## Model

| member | source | states |
|---|---|---|
| Models.InventoryItem.WithQuantity | composeApp/src/commonMain/kotlin/com/kmptest/models/InventoryItem.kt:3-9 | `copy(quantity = q)` yields quantity `q` and leaves id, name, price and category unchanged |
| Models.StructuralEquality | composeApp/src/commonMain/kotlin/com/kmptest/models/InventoryItem.kt:3-9 | two items are equal iff all five fields are equal (data-class equality) |
| Models.WithQuantityRoundTrip | composeApp/src/commonMain/kotlin/com/kmptest/models/InventoryItem.kt:3-9 | copying with the item's own quantity is the identity; copying back the old quantity undoes a copy; a copy equals the original iff the quantity was already `q` |
| ViewModels.Seed | composeApp/src/commonMain/kotlin/com/kmptest/viewmodels/InventoryViewModel.kt:13-21 | the initial list has exactly five items, with ids "1" to "5" in order and positive quantities |
| ViewModels.SeedIdsUnique | composeApp/src/commonMain/kotlin/com/kmptest/viewmodels/InventoryViewModel.kt:15-21 | each seed id occurs exactly once |
| ViewModels.AddItem | composeApp/src/commonMain/kotlin/com/kmptest/viewmodels/InventoryViewModel.kt:24-26 | append: one more item, the old list is an unchanged prefix, the new item is last, and its id count rises by one even if the id was already present |
| ViewModels.RemoveItem | composeApp/src/commonMain/kotlin/com/kmptest/viewmodels/InventoryViewModel.kt:28-30 | afterwards no item has the id; an item remains iff it was there and has another id; length drops by the number of matches |
| ViewModels.RemoveItemConcat | composeApp/src/commonMain/kotlin/com/kmptest/viewmodels/InventoryViewModel.kt:29 | removal distributes over concatenation, so the kept items stay in their original relative order |
| ViewModels.RemoveItemAbsent | composeApp/src/commonMain/kotlin/com/kmptest/viewmodels/InventoryViewModel.kt:29 | removing an id no item has leaves the list unchanged |
| ViewModels.RemoveItemIdempotent | composeApp/src/commonMain/kotlin/com/kmptest/viewmodels/InventoryViewModel.kt:29 | removing an id twice equals removing it once |
| ViewModels.RemoveItemCommutes | composeApp/src/commonMain/kotlin/com/kmptest/viewmodels/InventoryViewModel.kt:29 | removals of two ids give the same list in either order |
| ViewModels.AddThenRemove | composeApp/src/commonMain/kotlin/com/kmptest/viewmodels/InventoryViewModel.kt:24-30 | deleting the id just added equals deleting it from the old list, including any older duplicates |
| ViewModels.UpdateQuantity | composeApp/src/commonMain/kotlin/com/kmptest/viewmodels/InventoryViewModel.kt:32-36 | length and the id at every index are preserved; items with the id get quantity `q`, of any sign, and keep name, price and category; other items are identical to before |
| ViewModels.UpdateQuantityAbsent | composeApp/src/commonMain/kotlin/com/kmptest/viewmodels/InventoryViewModel.kt:33-35 | updating an id no item has leaves the list unchanged |
| ViewModels.UpdateQuantityLastWins | composeApp/src/commonMain/kotlin/com/kmptest/viewmodels/InventoryViewModel.kt:32-36 | a second update of the same id overrides the first, so repeating an update is idempotent |
| ViewModels.UpdateQuantityCommutes | composeApp/src/commonMain/kotlin/com/kmptest/viewmodels/InventoryViewModel.kt:32-36 | updates of different ids give the same list in either order |
| ViewModels.UpdateThenRemove | composeApp/src/commonMain/kotlin/com/kmptest/viewmodels/InventoryViewModel.kt:28-36 | updating an id and then removing it equals removing it alone |
| ViewModels.UpdateRemoveCommute | composeApp/src/commonMain/kotlin/com/kmptest/viewmodels/InventoryViewModel.kt:28-36 | removing one id and updating another give the same list in either order |
| ViewModels.UpdateQuantityKeepsCounts | composeApp/src/commonMain/kotlin/com/kmptest/viewmodels/InventoryViewModel.kt:33-35 | an update never changes how many items have any given id |
| ViewModels.UpdateQuantityUnique | composeApp/src/commonMain/kotlin/com/kmptest/viewmodels/InventoryViewModel.kt:32-36 | when the id was unique, exactly one item still has it, and that item is the old one with quantity `q` |
| ViewModels.CountIdConcat | composeApp/src/commonMain/kotlin/com/kmptest/viewmodels/InventoryViewModel.kt:25 | the number of items with an id in a concatenation is the sum over its two parts |
| ViewModels.CountIdZero | composeApp/src/commonMain/kotlin/com/kmptest/viewmodels/InventoryViewModel.kt:29 | the id count is zero iff no item has the id |
| ViewModels.RunLength | composeApp/src/commonMain/kotlin/com/kmptest/viewmodels/InventoryViewModel.kt:24-36 | across any sequence of store calls the list grows by at most the number of additions, and by exactly that many when every call is an addition |
| ViewModels.SeedThenAdds | composeApp/src/commonMain/kotlin/com/kmptest/viewmodels/InventoryViewModel.kt:15-26 | after n additions to the seeded store the list holds 5 + n items |
| ViewModels.SeedRemoveThree | composeApp/src/commonMain/kotlin/com/kmptest/viewmodels/InventoryViewModel.kt:15-30 | deleting "3" from the seed leaves four items, none with id "3" |
| ViewModels.SeedUpdateOne | composeApp/src/commonMain/kotlin/com/kmptest/viewmodels/InventoryViewModel.kt:15-36 | setting seed item "1" to 7 changes only that item's quantity |
| ViewModels.SeedRemoveAbsent | composeApp/src/commonMain/kotlin/com/kmptest/viewmodels/InventoryViewModel.kt:15-30 | deleting "999" from the seed leaves it unchanged |
| App.CardClick | composeApp/src/commonMain/kotlin/com/kmptest/App.kt:119-133 | each card button targets the card's own id; "-" requests quantity − 1 iff quantity > 0 and otherwise does nothing; "+" always requests the 32-bit quantity + 1; "×" requests removal |
| App.DecrementNeverNegative | composeApp/src/commonMain/kotlin/com/kmptest/App.kt:120 | the "-" button never requests a negative quantity |
| App.IncrementWrapsAtMax | composeApp/src/commonMain/kotlin/com/kmptest/App.kt:127 | "+" on an item holding `Int.MAX_VALUE` requests `Int.MIN_VALUE` |
| App.ConfirmAdd | composeApp/src/commonMain/kotlin/com/kmptest/App.kt:185-196 | confirm emits an item iff name, quantity and price are all non-blank; the emitted item has the drawn id, the name verbatim, the parsed quantity or 0, the parsed price or 0.0, and the category or "General" when it is blank |
| App.ConfirmedItemShape | composeApp/src/commonMain/kotlin/com/kmptest/App.kt:186-193 | an emitted item has a non-blank name and a non-blank category, which is "General" exactly when the input was blank; its id reads back as the drawn number |
| App.ConfirmEmptyForm | composeApp/src/commonMain/kotlin/com/kmptest/App.kt:151-154 | confirming the untouched form, with all fields empty, emits nothing |
| App.ConfirmParseFallback | composeApp/src/commonMain/kotlin/com/kmptest/App.kt:191-192 | an unparsable quantity gives 0 and an unparsable price gives 0.0; a parsed quantity is stored whatever its sign |
| App.ConfirmIdCollision | composeApp/src/commonMain/kotlin/com/kmptest/App.kt:189 | two emitted items get the same id iff the random draws were equal |
| App.Step | composeApp/src/commonMain/kotlin/com/kmptest/App.kt:20-90 | the FAB shows the dialog, with an empty form if it was closed and the form kept if it was open; dismiss hides it; an edit writes its text into the open form; a successful confirm appends exactly the emitted item and hides the dialog; a failed confirm changes nothing; "×" on card k removes `items[k].id`, "+" updates it to the 32-bit quantity + 1, "-" updates it to quantity − 1 only when quantity > 0; card buttons never touch the dialog, and a missing card changes nothing |
| App.SetField | composeApp/src/commonMain/kotlin/com/kmptest/App.kt:161-180 | each `onValueChange` replaces its own field's text and leaves the other three fields alone |
| App.ItemCountChange | composeApp/src/commonMain/kotlin/com/kmptest/App.kt:53 | the displayed count rises iff a confirm succeeds, and then by exactly one; deleting a card drops it by the number of items sharing that card's id; other events leave it unchanged |
| App.StepKeepsNonNegative | composeApp/src/commonMain/kotlin/com/kmptest/App.kt:119-128 | every event except "+" at `Int.MAX_VALUE` and a confirm with a negative parsed quantity keeps all quantities non-negative |
| App.IncrementBreaksNonNegative | composeApp/src/commonMain/kotlin/com/kmptest/App.kt:127 | "+" at `Int.MAX_VALUE` does make a non-negative list negative |
| App.ConfirmBreaksNonNegative | composeApp/src/commonMain/kotlin/com/kmptest/App.kt:186-191 | a confirm whose quantity text parses to −1 does make a non-negative list negative |
| App.ReplayKeepsNonNegative | composeApp/src/commonMain/kotlin/com/kmptest/App.kt:69-90 | over any run of events avoiding those two cases, quantities stay non-negative |
| KotlinTypes.Wrap | composeApp/src/commonMain/kotlin/com/kmptest/App.kt:120-127 | an `Int` result is congruent modulo 2^32 to the exact value, and equal to it when that value is in range |
| KotlinTypes.Plus | composeApp/src/commonMain/kotlin/com/kmptest/App.kt:127 | `Int` addition: the exact sum when it fits in 32 bits, otherwise the sum shifted by 2^32 back into range |
| KotlinTypes.Minus | composeApp/src/commonMain/kotlin/com/kmptest/App.kt:120 | `Int` subtraction: the exact difference when it fits in 32 bits, otherwise the difference shifted by 2^32 back into range |
| KotlinTypes.IsBlank | composeApp/src/commonMain/kotlin/com/kmptest/App.kt:186 | `isBlank`: the string is empty or every character is JVM whitespace; `isNotBlank` is its negation |
| KotlinTypes.DecimalString | composeApp/src/commonMain/kotlin/com/kmptest/App.kt:189 | `toString()` of a non-negative number is a non-empty digit string with no leading zero |
| KotlinTypes.DecimalRoundTrip | composeApp/src/commonMain/kotlin/com/kmptest/App.kt:189 | reading the decimal string of n back gives n |
| KotlinTypes.IfBlank | composeApp/src/commonMain/kotlin/com/kmptest/App.kt:193 | `ifBlank` keeps a non-blank string and otherwise substitutes the default, so the result is non-blank whenever the default is |

## Left out

- The Compose rendering is left out: layout, theming, the top bar and card
  styling. So is the window bootstrap in `main.kt`. None of it decides
  anything.
- `MutableStateFlow`/`StateFlow` publication and `collectAsState` are left
  out. The store is its list value, and observer notification belongs to the
  coroutines library.
- The "Total Value" sum of `price * quantity` is left out, because it is
  floating-point arithmetic. Prices are carried as bit patterns and never
  computed with.
- `toIntOrNull` and `toDoubleOrNull` are parameters, not re-implementations
  of Kotlin's number grammar.
- The random draw `(0..999999).random()` is an input of the `Confirm` event.
- Dialog modality is not modelled: `Step` accepts card events while the
  dialog is open, though the framework would block them there.
- Price equality is taken as bit-pattern equality. Kotlin's data-class
  equality treats all NaN payloads as one value; the model does not.
