/**
 The decision logic of the inventory screen (`App`, `InventoryItemCard`,
 `AddItemDialog`): which store call each card button makes, which item the
 add form's confirm button emits, and how the add-dialog flag moves. The
 rendering itself is not modelled. The random id draw and the number
 parsers are inputs.
 */
module App {
  import opened Wrappers
  import opened KotlinTypes
  import opened Models
  import opened ViewModels

  /** The three buttons of an item card: "-", "+" and "×". */
  datatype CardButton = Decrement | Increment | Delete

  /** The store call a card button makes for the card's `item`, if any. */
  function CardClick(item: InventoryItem, button: CardButton): (r: Option<Command>)
    ensures r.Some? ==> !r.value.Add? && r.value.id == item.id
    ensures button == Delete ==> r == Some(Remove(item.id))
    ensures button == Decrement ==> (r.Some? <==> item.quantity > 0)
    ensures button == Decrement && r.Some? ==>
      r.value.Update? && r.value.quantity as int == item.quantity as int - 1
    ensures button == Increment ==> r == Some(Update(item.id, Plus(item.quantity, 1)))
  {
    match button
    case Decrement => if item.quantity > 0 then Some(Update(item.id, Minus(item.quantity, 1))) else None
    case Increment => Some(Update(item.id, Plus(item.quantity, 1)))
    case Delete => Some(Remove(item.id))
  }

  /** The "-" button never asks for a negative quantity. */
  lemma DecrementNeverNegative(item: InventoryItem)
    ensures CardClick(item, Decrement).Some? ==> CardClick(item, Decrement).value.quantity >= 0
  {
  }

  /** The "+" button on an item holding `Int.MAX_VALUE` asks for
      `Int.MIN_VALUE`: the increment is unchecked. */
  lemma IncrementWrapsAtMax(item: InventoryItem)
    requires item.quantity as int == MAX_VALUE
    ensures CardClick(item, Increment) == Some(Update(item.id, MIN_VALUE as Int32))
  {
  }

  /** The text fields of the add dialog. */
  datatype AddForm = AddForm(name: string, quantity: string, price: string, category: string)

  const EMPTY_FORM: AddForm := AddForm("", "", "", "")

  /** The default category of an item added with a blank category field. */
  const DEFAULT_CATEGORY: string := "General"

  /** A value of `(0..999999).random()`. */
  newtype RandomDraw = n: int | 0 <= n <= 999999

  /** The confirm button: the item it hands to `onAdd`, or `None` when name,
      quantity or price is blank. Unparsable numbers become 0 and 0.0. */
  function ConfirmAdd(form: AddForm, draw: RandomDraw, parsers: Parsers): (r: Option<InventoryItem>)
    ensures r.Some? <==> !IsBlank(form.name) && !IsBlank(form.quantity) && !IsBlank(form.price)
    ensures r.Some? ==> r.value.id == DecimalString(draw as nat)
    ensures r.Some? ==> r.value.name == form.name
    ensures r.Some? ==> r.value.quantity == parsers.toIntOrNull(form.quantity).GetOr(0)
    ensures r.Some? ==> r.value.price == parsers.toDoubleOrNull(form.price).GetOr(ZERO_PRICE)
    ensures r.Some? ==> r.value.category == IfBlank(form.category, DEFAULT_CATEGORY)
  {
    if !IsBlank(form.name) && !IsBlank(form.quantity) && !IsBlank(form.price) then
      Some(InventoryItem(
        DecimalString(draw as nat),
        form.name,
        parsers.toIntOrNull(form.quantity).GetOr(0),
        parsers.toDoubleOrNull(form.price).GetOr(ZERO_PRICE),
        IfBlank(form.category, DEFAULT_CATEGORY)))
    else
      None
  }

  /** An emitted item has a non-blank name and category, and its id is the
      decimal form of the draw, which it determines uniquely. */
  lemma ConfirmedItemShape(form: AddForm, draw: RandomDraw, parsers: Parsers)
    requires ConfirmAdd(form, draw, parsers).Some?
    ensures !IsBlank(ConfirmAdd(form, draw, parsers).value.name)
    ensures !IsBlank(ConfirmAdd(form, draw, parsers).value.category)
    ensures IsBlank(form.category) ==> ConfirmAdd(form, draw, parsers).value.category == DEFAULT_CATEGORY
    ensures !IsBlank(form.category) ==> ConfirmAdd(form, draw, parsers).value.category == form.category
    ensures DecimalValue(ConfirmAdd(form, draw, parsers).value.id) == draw as nat
  {
    assert !IsWhitespace(DEFAULT_CATEGORY[0]);
    DecimalRoundTrip(draw as nat);
  }

  /** A fresh, untouched form emits nothing. */
  lemma ConfirmEmptyForm(draw: RandomDraw, parsers: Parsers)
    ensures ConfirmAdd(EMPTY_FORM, draw, parsers) == None
  {
  }

  /** Parse failures fall back to zero; a parsed quantity is kept whatever
      its sign. */
  lemma ConfirmParseFallback(form: AddForm, draw: RandomDraw, parsers: Parsers)
    requires ConfirmAdd(form, draw, parsers).Some?
    ensures parsers.toIntOrNull(form.quantity).None? ==> ConfirmAdd(form, draw, parsers).value.quantity == 0
    ensures parsers.toDoubleOrNull(form.price).None? ==> ConfirmAdd(form, draw, parsers).value.price == ZERO_PRICE
    ensures parsers.toIntOrNull(form.quantity).Some? ==>
      ConfirmAdd(form, draw, parsers).value.quantity == parsers.toIntOrNull(form.quantity).value
  {
  }

  /** Two confirmations draw the same id exactly when they draw the same
      number: ids from the random range can collide. */
  lemma ConfirmIdCollision(f: AddForm, g: AddForm, m: RandomDraw, n: RandomDraw, parsers: Parsers)
    requires ConfirmAdd(f, m, parsers).Some? && ConfirmAdd(g, n, parsers).Some?
    ensures ConfirmAdd(f, m, parsers).value.id == ConfirmAdd(g, n, parsers).value.id <==> m == n
  {
    DecimalStringInjective(m as nat, n as nat);
  }

  /** What the screen holds: the store's list and, while the add dialog is
      shown, the dialog's remembered field texts. The dialog's state is
      dropped when it closes, so it reopens empty. */
  datatype Screen = Screen(items: seq<InventoryItem>, dialog: Option<AddForm>) {
    /** `showAddDialog` */
    predicate ShowAddDialog() {
      dialog.Some?
    }

    /** "Total Items": the length of the list. */
    function ItemCount(): nat {
      |items|
    }
  }

  const INITIAL_SCREEN: Screen := Screen(Seed(), None)

  datatype FormField = NameField | QuantityField | PriceField | CategoryField

  /** The text a field currently shows. */
  function FieldText(form: AddForm, field: FormField): string {
    match field
    case NameField => form.name
    case QuantityField => form.quantity
    case PriceField => form.price
    case CategoryField => form.category
  }

  /** A field's `onValueChange`: the field shows the new text, the others
      keep theirs. */
  function SetField(form: AddForm, field: FormField, text: string): (r: AddForm)
    ensures FieldText(r, field) == text
    ensures forall f :: f != field ==> FieldText(r, f) == FieldText(form, f)
  {
    match field
    case NameField => form.(name := text)
    case QuantityField => form.(quantity := text)
    case PriceField => form.(price := text)
    case CategoryField => form.(category := text)
  }

  /** The user's actions. `Confirm` carries the number the random draw
      returns; `Card` names a card by its position in the list. */
  datatype Event =
    | FabClick
    | Dismiss
    | Edit(field: FormField, text: string)
    | Confirm(draw: RandomDraw)
    | Card(index: nat, button: CardButton)

  /** The screen after one event. Events aimed at a dialog that is not shown
      or at a card that does not exist change nothing. */
  function Step(s: Screen, e: Event, parsers: Parsers): (r: Screen)
    ensures e.FabClick? ==> r.ShowAddDialog() && r.items == s.items
    ensures e.FabClick? && !s.ShowAddDialog() ==> r.dialog == Some(EMPTY_FORM)
    ensures e.Dismiss? ==> !r.ShowAddDialog() && r.items == s.items
    ensures e.Edit? ==> r.items == s.items && r.ShowAddDialog() == s.ShowAddDialog()
    ensures e.FabClick? && s.ShowAddDialog() ==> r == s
    ensures e.Edit? && s.ShowAddDialog() ==> r.dialog == Some(SetField(s.dialog.value, e.field, e.text))
    ensures e.Edit? && !s.ShowAddDialog() ==> r == s
    ensures e.Card? ==> r.dialog == s.dialog
    ensures e.Card? && e.index >= |s.items| ==> r == s
    ensures e.Card? && e.index < |s.items| && e.button == Delete ==>
      r.items == RemoveItem(s.items, s.items[e.index].id)
    ensures e.Card? && e.index < |s.items| && e.button == Increment ==>
      r.items == UpdateQuantity(s.items, s.items[e.index].id, Plus(s.items[e.index].quantity, 1))
    ensures e.Card? && e.index < |s.items| && e.button == Decrement && s.items[e.index].quantity > 0 ==>
      r.items == UpdateQuantity(s.items, s.items[e.index].id, Minus(s.items[e.index].quantity, 1))
    ensures e.Card? && e.index < |s.items| && e.button == Decrement && s.items[e.index].quantity <= 0 ==>
      r == s
    ensures e.Confirm? && s.ShowAddDialog() ==> (
      match ConfirmAdd(s.dialog.value, e.draw, parsers)
      case Some(item) => r == Screen(AddItem(s.items, item), None)
      case None => r == s)
    ensures e.Confirm? && !s.ShowAddDialog() ==> r == s
  {
    match e
    case FabClick =>
      if s.ShowAddDialog() then s else s.(dialog := Some(EMPTY_FORM))
    case Dismiss =>
      s.(dialog := None)
    case Edit(field, text) =>
      if s.ShowAddDialog() then s.(dialog := Some(SetField(s.dialog.value, field, text))) else s
    case Confirm(draw) =>
      if !s.ShowAddDialog() then s
      else (
        match ConfirmAdd(s.dialog.value, draw, parsers)
        case Some(item) => Screen(AddItem(s.items, item), None)
        case None => s)
    case Card(k, button) =>
      if k < |s.items| then (
        match CardClick(s.items[k], button)
        case Some(c) => s.(items := Apply(s.items, c))
        case None => s)
      else s
  }

  /** The item count grows only through a successful confirmation, by
      exactly one; deleting a card drops every item sharing its id; the
      other events leave the count alone. */
  lemma ItemCountChange(s: Screen, e: Event, parsers: Parsers)
    ensures Step(s, e, parsers).ItemCount() > s.ItemCount() <==>
      e.Confirm? && s.ShowAddDialog() && ConfirmAdd(s.dialog.value, e.draw, parsers).Some?
    ensures Step(s, e, parsers).ItemCount() > s.ItemCount() ==> Step(s, e, parsers).ItemCount() == s.ItemCount() + 1
    ensures e.Card? && e.button == Delete && e.index < |s.items| ==>
      Step(s, e, parsers).ItemCount() == s.ItemCount() - CountId(s.items, s.items[e.index].id)
    ensures e.FabClick? || e.Dismiss? || e.Edit? || (e.Card? && e.button != Delete) ==>
      Step(s, e, parsers).ItemCount() == s.ItemCount()
  {
    if e.Card? && e.button == Delete && e.index < |s.items| {
      var id := s.items[e.index].id;
      assert CountId(s.items, id) > 0 by {
        CountIdZero(s.items, id);
      }
    }
  }

  /** Every quantity in the list is non-negative. */
  predicate AllNonNegative(items: seq<InventoryItem>) {
    forall k :: 0 <= k < |items| ==> items[k].quantity >= 0
  }

  /** The two ways an event can bring a negative quantity into the list:
      "+" on an item already at `Int.MAX_VALUE`, and a confirmation whose
      quantity text parses to a negative number. */
  predicate MayIntroduceNegative(s: Screen, e: Event, parsers: Parsers) {
    || (e.Card? && e.button == Increment && e.index < |s.items| && s.items[e.index].quantity as int == MAX_VALUE)
    || (e.Confirm? && s.ShowAddDialog() && parsers.toIntOrNull(s.dialog.value.quantity).GetOr(0) < 0)
  }

  /** Apart from those two cases, no event makes a quantity negative. */
  lemma StepKeepsNonNegative(s: Screen, e: Event, parsers: Parsers)
    requires AllNonNegative(s.items)
    requires !MayIntroduceNegative(s, e, parsers)
    ensures AllNonNegative(Step(s, e, parsers).items)
  {
    var r := Step(s, e, parsers);
    if e.Card? && e.index < |s.items| {
      var item := s.items[e.index];
      match CardClick(item, e.button)
      case Some(c) =>
        if c.Update? {
          assert c.quantity >= 0;
        }
      case None =>
    }
  }

  /** The first exception is real: "+" at `Int.MAX_VALUE` turns a
      non-negative list negative. */
  lemma IncrementBreaksNonNegative(s: Screen, parsers: Parsers)
    requires |s.items| > 0 && AllNonNegative(s.items) && s.items[0].quantity as int == MAX_VALUE
    ensures !AllNonNegative(Step(s, Card(0, Increment), parsers).items)
  {
    var r := Step(s, Card(0, Increment), parsers);
    assert r.items[0].quantity as int == MIN_VALUE;
  }

  /** So is the second: confirming a form whose quantity text parses to -1
      appends an item holding -1. */
  lemma ConfirmBreaksNonNegative(s: Screen, draw: RandomDraw, parsers: Parsers)
    requires s.ShowAddDialog() && AllNonNegative(s.items)
    requires !IsBlank(s.dialog.value.name) && !IsBlank(s.dialog.value.quantity) && !IsBlank(s.dialog.value.price)
    requires parsers.toIntOrNull(s.dialog.value.quantity) == Some(-1)
    ensures !AllNonNegative(Step(s, Confirm(draw), parsers).items)
  {
    var r := Step(s, Confirm(draw), parsers);
    assert r.items[|s.items|].quantity == -1;
  }

  /** The screen after a run of events. */
  function Replay(s: Screen, es: seq<Event>, parsers: Parsers): Screen
    decreases |es|
  {
    if es == [] then s else Replay(Step(s, es[0], parsers), es[1..], parsers)
  }

  /** Over any run of events free of the two exceptions, quantities stay
      non-negative; the seed starts non-negative. */
  lemma {:induction false} ReplayKeepsNonNegative(s: Screen, es: seq<Event>, parsers: Parsers)
    requires AllNonNegative(s.items)
    requires forall k :: 0 <= k < |es| ==> !MayIntroduceNegative(Replay(s, es[..k], parsers), es[k], parsers)
    ensures AllNonNegative(Replay(s, es, parsers).items)
    decreases |es|
  {
    if es != [] {
      assert es[..0] == [];
      StepKeepsNonNegative(s, es[0], parsers);
      var s' := Step(s, es[0], parsers);
      forall k | 0 <= k < |es[1..]|
        ensures !MayIntroduceNegative(Replay(s', es[1..][..k], parsers), es[1..][k], parsers)
      {
        ReplayPrefix(s, es, k + 1, parsers);
      }
      ReplayKeepsNonNegative(s', es[1..], parsers);
    }
  }

  /** Replaying a prefix of length k + 1 steps through its first event. */
  lemma ReplayPrefix(s: Screen, es: seq<Event>, k: nat, parsers: Parsers)
    requires 1 <= k <= |es|
    ensures Replay(s, es[..k], parsers) == Replay(Step(s, es[0], parsers), es[1..][..k - 1], parsers)
  {
    assert es[..k][1..] == es[1..][..k - 1];
  }

  lemma SeedNonNegative()
    ensures AllNonNegative(INITIAL_SCREEN.items)
  {
  }
}
