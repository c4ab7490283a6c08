/** The inventory entity, `com.kmptest.models`. */
module Models {
  import opened KotlinTypes

  /** Kotlin `data class InventoryItem`: five fields, none with a default.
      The quantity is a plain `Int`: nothing here keeps it non-negative. */
  datatype InventoryItem = InventoryItem(
    id: string,
    name: string,
    quantity: Int32,
    price: Price,
    category: string)
  {
    /** The data-class `copy(quantity = q)`. */
    function WithQuantity(q: Int32): (r: InventoryItem)
      ensures r.quantity == q
      ensures r.id == id && r.name == name && r.price == price && r.category == category
    {
      this.(quantity := q)
    }
  }

  /** Data-class equality is field by field. */
  lemma StructuralEquality(a: InventoryItem, b: InventoryItem)
    ensures a == b <==>
      a.id == b.id && a.name == b.name && a.quantity == b.quantity && a.price == b.price && a.category == b.category
  {
  }

  /** Copying with the quantity an item already has gives back that item, and
      copying back the old quantity undoes a copy. */
  lemma WithQuantityRoundTrip(x: InventoryItem, q: Int32)
    ensures x.WithQuantity(x.quantity) == x
    ensures x.WithQuantity(q).WithQuantity(x.quantity) == x
    ensures x.WithQuantity(q) == x <==> x.quantity == q
  {
  }
}
