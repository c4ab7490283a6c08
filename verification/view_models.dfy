/**
 The item store, `com.kmptest.viewmodels.InventoryViewModel`: an ordered
 list of items, seeded with five samples, changed only by whole-list
 replacement through `addItem`, `removeItem` and `updateQuantity`. The
 state-flow publication is left out; the state is the list itself.
 */
module ViewModels {
  import opened KotlinTypes
  import opened Models

  /** How many items in `items` carry `id`. */
  function CountId(items: seq<InventoryItem>, id: string): nat
    decreases |items|
  {
    if items == [] then 0
    else (if items[0].id == id then 1 else 0) + CountId(items[1..], id)
  }

  /** The five sample items the store starts with, ids "1" to "5". */
  function Seed(): (r: seq<InventoryItem>)
    ensures |r| == 5
    ensures forall k :: 0 <= k < |r| ==> r[k].id == DecimalString(k + 1)
    ensures forall k :: 0 <= k < |r| ==> r[k].quantity > 0
  {
    SeedIds();
    [
      InventoryItem("1", "Laptop", 10, Price(0x408F_3FEB_851E_B852), "Electronics"),   // 999.99
      InventoryItem("2", "Mouse", 50, Price(0x403D_FD70_A3D7_0A3D), "Electronics"),    // 29.99
      InventoryItem("3", "Desk", 5, Price(0x4072_BFD7_0A3D_70A4), "Furniture"),        // 299.99
      InventoryItem("4", "Chair", 15, Price(0x4062_BFAE_147A_E148), "Furniture"),      // 149.99
      InventoryItem("5", "Notebook", 100, Price(0x4013_F5C2_8F5C_28F6), "Stationery")  // 4.99
    ]
  }

  lemma SeedIds()
    ensures DecimalString(1) == "1" && DecimalString(2) == "2" && DecimalString(3) == "3"
    ensures DecimalString(4) == "4" && DecimalString(5) == "5"
  {
  }

  /** No two seed items share an id. */
  lemma SeedIdsUnique()
    ensures forall k :: 0 <= k < |Seed()| ==> CountId(Seed(), Seed()[k].id) == 1
  {
    var r := Seed();
    assert CountId(r, "1") == 1 && CountId(r, "2") == 1 && CountId(r, "3") == 1;
    assert CountId(r, "4") == 1 && CountId(r, "5") == 1;
  }

  /** `addItem`: the item goes to the end; nothing checks its id. */
  function AddItem(items: seq<InventoryItem>, item: InventoryItem): (r: seq<InventoryItem>)
    ensures |r| == |items| + 1
    ensures r[..|items|] == items
    ensures r[|items|] == item
    ensures CountId(r, item.id) == CountId(items, item.id) + 1
  {
    CountIdConcat(items, [item], item.id);
    items + [item]
  }

  /** `removeItem`: keeps exactly the items whose id differs from `id`. */
  function RemoveItem(items: seq<InventoryItem>, id: string): (r: seq<InventoryItem>)
    ensures |r| == |items| - CountId(items, id)
    ensures CountId(r, id) == 0
    ensures forall x :: x in r <==> x in items && x.id != id
    decreases |items|
  {
    if items == [] then []
    else if items[0].id != id then [items[0]] + RemoveItem(items[1..], id)
    else RemoveItem(items[1..], id)
  }

  /** `updateQuantity`: every item carrying `id` gets quantity `q`, whatever
      its sign; every other item and every other field is left as it was. */
  function UpdateQuantity(items: seq<InventoryItem>, id: string, q: Int32): (r: seq<InventoryItem>)
    ensures |r| == |items|
    ensures forall k :: 0 <= k < |r| ==> r[k].id == items[k].id
    ensures forall k :: 0 <= k < |r| && items[k].id == id ==>
      && r[k].quantity == q
      && r[k].name == items[k].name
      && r[k].price == items[k].price
      && r[k].category == items[k].category
    ensures forall k :: 0 <= k < |r| && items[k].id != id ==> r[k] == items[k]
    decreases |items|
  {
    if items == [] then []
    else
      var head := if items[0].id == id then items[0].WithQuantity(q) else items[0];
      [head] + UpdateQuantity(items[1..], id, q)
  }

  /** Counting distributes over concatenation. */
  lemma {:induction false} CountIdConcat(a: seq<InventoryItem>, b: seq<InventoryItem>, id: string)
    ensures CountId(a + b, id) == CountId(a, id) + CountId(b, id)
    decreases |a|
  {
    if a == [] {
      assert a + b == b;
    } else {
      assert (a + b)[1..] == a[1..] + b;
      CountIdConcat(a[1..], b, id);
    }
  }

  /** No item carries `id` exactly when the count is zero. */
  lemma {:induction false} CountIdZero(items: seq<InventoryItem>, id: string)
    ensures CountId(items, id) == 0 <==> forall k :: 0 <= k < |items| ==> items[k].id != id
    decreases |items|
  {
    if items != [] {
      CountIdZero(items[1..], id);
      assert forall k :: 1 <= k < |items| ==> items[k] == items[1..][k - 1];
    }
  }

  /** Removing keeps the relative order: it distributes over concatenation
      (with the one-item cases read off the definition, this pins the result
      down as the order-preserving filter). */
  lemma {:induction false} RemoveItemConcat(a: seq<InventoryItem>, b: seq<InventoryItem>, id: string)
    ensures RemoveItem(a + b, id) == RemoveItem(a, id) + RemoveItem(b, id)
    decreases |a|
  {
    if a == [] {
      assert a + b == b;
    } else {
      assert (a + b)[1..] == a[1..] + b;
      RemoveItemConcat(a[1..], b, id);
    }
  }

  /** Removing an absent id leaves the list unchanged. */
  lemma {:induction false} RemoveItemAbsent(items: seq<InventoryItem>, id: string)
    requires CountId(items, id) == 0
    ensures RemoveItem(items, id) == items
    decreases |items|
  {
    if items != [] {
      RemoveItemAbsent(items[1..], id);
    }
  }

  /** Removing the same id twice is removing it once. */
  lemma RemoveItemIdempotent(items: seq<InventoryItem>, id: string)
    ensures RemoveItem(RemoveItem(items, id), id) == RemoveItem(items, id)
  {
    RemoveItemAbsent(RemoveItem(items, id), id);
  }

  /** Removals of two ids commute. */
  lemma {:induction false} RemoveItemCommutes(items: seq<InventoryItem>, a: string, b: string)
    ensures RemoveItem(RemoveItem(items, a), b) == RemoveItem(RemoveItem(items, b), a)
    decreases |items|
  {
    if items != [] {
      RemoveItemCommutes(items[1..], a, b);
    }
  }

  /** Deleting the id just added also deletes every earlier item with that
      id, since `addItem` admits duplicates. */
  lemma AddThenRemove(items: seq<InventoryItem>, item: InventoryItem)
    ensures RemoveItem(AddItem(items, item), item.id) == RemoveItem(items, item.id)
  {
    RemoveItemConcat(items, [item], item.id);
  }

  /** Updating an absent id leaves the list unchanged. */
  lemma UpdateQuantityAbsent(items: seq<InventoryItem>, id: string, q: Int32)
    requires CountId(items, id) == 0
    ensures UpdateQuantity(items, id, q) == items
  {
    CountIdZero(items, id);
  }

  /** A later update of the same id overrides an earlier one; in particular
      updating twice with the same quantity is updating once. */
  lemma UpdateQuantityLastWins(items: seq<InventoryItem>, id: string, p: Int32, q: Int32)
    ensures UpdateQuantity(UpdateQuantity(items, id, p), id, q) == UpdateQuantity(items, id, q)
    ensures UpdateQuantity(UpdateQuantity(items, id, q), id, q) == UpdateQuantity(items, id, q)
  {
  }

  /** Updates of distinct ids commute. */
  lemma UpdateQuantityCommutes(items: seq<InventoryItem>, a: string, p: Int32, b: string, q: Int32)
    requires a != b
    ensures UpdateQuantity(UpdateQuantity(items, a, p), b, q) == UpdateQuantity(UpdateQuantity(items, b, q), a, p)
  {
  }

  /** An update followed by removal of the same id is the removal alone. */
  lemma {:induction false} UpdateThenRemove(items: seq<InventoryItem>, id: string, q: Int32)
    ensures RemoveItem(UpdateQuantity(items, id, q), id) == RemoveItem(items, id)
    decreases |items|
  {
    if items != [] {
      UpdateThenRemove(items[1..], id, q);
    }
  }

  /** Removing an id, then updating another, is updating first, then removing. */
  lemma {:induction false} UpdateRemoveCommute(items: seq<InventoryItem>, a: string, b: string, q: Int32)
    requires a != b
    ensures UpdateQuantity(RemoveItem(items, a), b, q) == RemoveItem(UpdateQuantity(items, b, q), a)
    decreases |items|
  {
    if items != [] {
      UpdateRemoveCommute(items[1..], a, b, q);
    }
  }

  /** Updating never changes how many items carry any id. */
  lemma {:induction false} UpdateQuantityKeepsCounts(items: seq<InventoryItem>, id: string, q: Int32, other: string)
    ensures CountId(UpdateQuantity(items, id, q), other) == CountId(items, other)
    decreases |items|
  {
    if items != [] {
      UpdateQuantityKeepsCounts(items[1..], id, q, other);
    }
  }

  /** With ids unique, after `updateQuantity(id, q)` exactly one item
      carries `id`, and it holds `q` with its other fields unchanged. */
  lemma UpdateQuantityUnique(items: seq<InventoryItem>, id: string, q: Int32, k: nat)
    requires k < |items| && items[k].id == id && CountId(items, id) == 1
    ensures CountId(UpdateQuantity(items, id, q), id) == 1
    ensures UpdateQuantity(items, id, q)[k] == items[k].WithQuantity(q)
  {
    UpdateQuantityKeepsCounts(items, id, q, id);
  }

  /** The store calls the screen makes. */
  datatype Command =
    | Add(item: InventoryItem)
    | Remove(id: string)
    | Update(id: string, quantity: Int32)

  function Apply(items: seq<InventoryItem>, c: Command): seq<InventoryItem> {
    match c
    case Add(item) => AddItem(items, item)
    case Remove(id) => RemoveItem(items, id)
    case Update(id, q) => UpdateQuantity(items, id, q)
  }

  /** The list after the commands, in order. */
  function Run(items: seq<InventoryItem>, cs: seq<Command>): seq<InventoryItem>
    decreases |cs|
  {
    if cs == [] then items else Run(Apply(items, cs[0]), cs[1..])
  }

  function AddCount(cs: seq<Command>): nat
    decreases |cs|
  {
    if cs == [] then 0 else (if cs[0].Add? then 1 else 0) + AddCount(cs[1..])
  }

  /** The list never grows by more than the number of additions, and grows by
      exactly that number when every command is an addition. */
  lemma {:induction false} RunLength(items: seq<InventoryItem>, cs: seq<Command>)
    ensures |Run(items, cs)| <= |items| + AddCount(cs)
    ensures (forall k :: 0 <= k < |cs| ==> cs[k].Add?) ==> |Run(items, cs)| == |items| + |cs|
    decreases |cs|
  {
    if cs != [] {
      RunLength(Apply(items, cs[0]), cs[1..]);
      assert forall k :: 1 <= k < |cs| ==> cs[k] == cs[1..][k - 1];
    }
  }

  /** From the seed, a run of n additions leaves 5 + n items. */
  lemma SeedThenAdds(cs: seq<Command>)
    requires forall k :: 0 <= k < |cs| ==> cs[k].Add?
    ensures |Run(Seed(), cs)| == 5 + |cs|
  {
    RunLength(Seed(), cs);
  }

  /** Deleting "3" from the seed leaves four items, none with id "3". */
  lemma SeedRemoveThree()
    ensures |RemoveItem(Seed(), "3")| == 4
    ensures CountId(RemoveItem(Seed(), "3"), "3") == 0
  {
    SeedIdsUnique();
    assert Seed()[2].id == "3";
  }

  /** Setting item "1" of the seed to 7 changes its quantity and nothing else. */
  lemma SeedUpdateOne()
    ensures UpdateQuantity(Seed(), "1", 7)[0] == Seed()[0].WithQuantity(7)
    ensures UpdateQuantity(Seed(), "1", 7)[1..] == Seed()[1..]
  {
    var s := Seed();
    assert s[0].id == "1";
    assert forall k :: 1 <= k < 5 ==> s[k].id != "1";
  }

  /** Deleting an id the seed lacks changes nothing. */
  lemma SeedRemoveAbsent()
    ensures RemoveItem(Seed(), "999") == Seed()
  {
    var s := Seed();
    assert forall k :: 0 <= k < 5 ==> s[k].id != "999";
    CountIdZero(s, "999");
    RemoveItemAbsent(s, "999");
  }
}
