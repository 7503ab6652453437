/**
 * The shopping-cart store: a list of line items held in one state cell and
 * replaced by pure "previous list -> next list" updates, plus the two
 * aggregate queries over it.
 */
module Cart {
  import opened Options
  import opened Seqs

  /** What the product cards hand to addToCart. */
  datatype Product = Product(id: int, name: string, price: int)

  /** One cart line: a product and how many of it are in the cart. */
  datatype Item = Item(id: int, name: string, price: int, quantity: int)

  /** The cart the store starts with. */
  const Seed: seq<Item> := [Item(1, "Gaming PC", 1299, 1)]

  predicate HasId(items: seq<Item>, id: int) {
    exists i :: 0 <= i < |items| && items[i].id == id
  }

  predicate DistinctIds(items: seq<Item>) {
    forall i, j :: 0 <= i < j < |items| ==> items[i].id != items[j].id
  }

  /** The store's invariant: one line per product id, and no line with a quantity below 1. */
  predicate WellFormed(items: seq<Item>) {
    DistinctIds(items) && forall i :: 0 <= i < |items| ==> items[i].quantity >= 1
  }

  /** The position of the first line with this id (the `find` in addToCart). */
  function FindIndex(items: seq<Item>, id: int): (r: Option<nat>)
    ensures r.None? <==> !HasId(items, id)
    ensures r.Some? ==> r.value < |items| && items[r.value].id == id
    ensures r.Some? ==> forall j :: 0 <= j < r.value ==> items[j].id != id
  {
    if items == [] then None
    else if items[0].id == id then Some(0)
    else
      match FindIndex(items[1..], id)
      case None => assert forall i :: 1 <= i < |items| ==> items[i] == items[1..][i - 1]; None
      case Some(k) => Some(k + 1)
  }

  /** The line addToCart appends for a product not yet in the cart. */
  function NewItem(p: Product): (r: Item) {
    Item(p.id, p.name, p.price, 1)
  }

  function BumpIfId(id: int): (f: Item -> Item) {
    (item: Item) => if item.id == id then item.(quantity := item.quantity + 1) else item
  }

  /** Every line with this id gets one more unit; every other line, the length and the order stay. */
  function Increment(items: seq<Item>, id: int): (r: seq<Item>)
    ensures |r| == |items|
    ensures forall i :: 0 <= i < |items| && items[i].id == id ==>
      r[i] == items[i].(quantity := items[i].quantity + 1)
    ensures forall i :: 0 <= i < |items| && items[i].id != id ==> r[i] == items[i]
  {
    Map(BumpIfId(id), items)
  }

  /** addToCart's update of the list. */
  function Add(items: seq<Item>, p: Product): (r: seq<Item>) {
    if FindIndex(items, p.id).Some? then Increment(items, p.id) else items + [NewItem(p)]
  }

  function NotId(id: int): (keep: Item -> bool) {
    (item: Item) => item.id != id
  }

  /** removeFromCart's update: drops every line with this id. */
  function Remove(items: seq<Item>, id: int): (r: seq<Item>)
    ensures forall i :: 0 <= i < |r| ==> r[i].id != id
  {
    Filter(NotId(id), items)
  }

  function SetIfId(id: int, q: int): (f: Item -> Item) {
    (item: Item) => if item.id == id then item.(quantity := q) else item
  }

  /** Every line with this id gets quantity exactly `q`; every other line, the length and the order stay. */
  function SetQuantity(items: seq<Item>, id: int, q: int): (r: seq<Item>)
    ensures |r| == |items|
    ensures forall i :: 0 <= i < |items| && items[i].id == id ==> r[i] == items[i].(quantity := q)
    ensures forall i :: 0 <= i < |items| && items[i].id != id ==> r[i] == items[i]
  {
    Map(SetIfId(id, q), items)
  }

  /** updateQuantity's update: a quantity of 0 or less removes the line. */
  function Update(items: seq<Item>, id: int, q: int): (r: seq<Item>) {
    if q <= 0 then Remove(items, id) else SetQuantity(items, id, q)
  }

  function Quantity(item: Item): (n: int) {
    item.quantity
  }

  function LineValue(item: Item): (v: int) {
    item.price * item.quantity
  }

  /** getCartTotal: the number of units in the cart. */
  function Total(items: seq<Item>): (n: int) {
    SumBy(Quantity, items)
  }

  /** getCartValue: what the units in the cart cost together. */
  function Value(items: seq<Item>): (v: int) {
    SumBy(LineValue, items)
  }

  // ---------------------------------------------------------------------------
  // addToCart

  lemma AddExisting(items: seq<Item>, p: Product, k: nat)
    requires DistinctIds(items) && k < |items| && items[k].id == p.id
    ensures Add(items, p) == items[k := items[k].(quantity := items[k].quantity + 1)]
  {
  }

  lemma AddNew(items: seq<Item>, p: Product)
    requires !HasId(items, p.id)
    ensures Add(items, p) == items + [Item(p.id, p.name, p.price, 1)]
  {
  }

  /** `k` calls of addToCart with the same product. */
  function AddTimes(items: seq<Item>, p: Product, k: nat): (r: seq<Item>) {
    if k == 0 then items else Add(AddTimes(items, p, k - 1), p)
  }

  /** Adding a product whose only line is the last one bumps that line and nothing else. */
  lemma AddToLast(items: seq<Item>, x: Item, p: Product)
    requires !HasId(items, p.id) && x.id == p.id
    ensures Add(items + [x], p) == items + [x.(quantity := x.quantity + 1)]
  {
    var s := items + [x];
    assert s[|items|].id == p.id;
    assert FindIndex(s, p.id).Some?;
    var r := Increment(s, p.id);
    assert forall i :: 0 <= i < |items| ==> s[i] == items[i] && r[i] == items[i];
    assert r[|items|] == x.(quantity := x.quantity + 1);
  }

  /** Adding a new product `k` times leaves one line for it, at the end, with quantity `k`. */
  lemma {:induction false} AddRepeated(items: seq<Item>, p: Product, k: nat)
    requires k >= 1 && !HasId(items, p.id)
    ensures AddTimes(items, p, k) == items + [Item(p.id, p.name, p.price, k)]
    ensures forall i :: 0 <= i < |items| ==> AddTimes(items, p, k)[i].id != p.id
  {
    if k > 1 {
      AddRepeated(items, p, k - 1);
      AddToLast(items, Item(p.id, p.name, p.price, k - 1), p);
    } else {
      AddNew(items, p);
    }
  }

  /** With one line per id, every addToCart adds exactly one unit. */
  lemma AddTotal(items: seq<Item>, p: Product)
    requires DistinctIds(items)
    ensures Total(Add(items, p)) == Total(items) + 1
  {
    match FindIndex(items, p.id)
    case Some(k) =>
      AddExisting(items, p, k);
      SumByUpdate(Quantity, items, k, items[k].(quantity := items[k].quantity + 1));
    case None =>
      assert [NewItem(p)][..0] == [];
      SumByAppend(Quantity, items, [NewItem(p)]);
  }

  lemma OneMoreUnit(item: Item)
    ensures LineValue(item.(quantity := item.quantity + 1)) == LineValue(item) + item.price
  {
  }

  lemma AddValueExisting(items: seq<Item>, p: Product, k: nat)
    requires DistinctIds(items) && k < |items| && items[k].id == p.id
    ensures Value(Add(items, p)) == Value(items) + items[k].price
  {
    AddExisting(items, p, k);
    SumByUpdate(LineValue, items, k, items[k].(quantity := items[k].quantity + 1));
    OneMoreUnit(items[k]);
  }

  lemma AddValueNew(items: seq<Item>, p: Product)
    requires !HasId(items, p.id)
    ensures Value(Add(items, p)) == Value(items) + p.price
  {
  }

  /** The value grows by one unit's price: the price already in the cart's line if there is one, else the product's. */
  lemma AddValue(items: seq<Item>, p: Product)
    requires DistinctIds(items)
    ensures Value(Add(items, p)) == Value(items) +
      match FindIndex(items, p.id) case Some(k) => items[k].price case None => p.price
  {
    match FindIndex(items, p.id)
    case Some(k) => AddValueExisting(items, p, k);
    case None => AddValueNew(items, p);
  }

  lemma AddPreserves(items: seq<Item>, p: Product)
    requires WellFormed(items)
    ensures WellFormed(Add(items, p))
  {
  }

  // ---------------------------------------------------------------------------
  // removeFromCart

  /** Removal keeps every other line, every occurrence of it, in the original order. */
  lemma RemoveExact(items: seq<Item>, id: int)
    ensures IsSubsequence(Remove(items, id), items)
    ensures forall x :: multiset(Remove(items, id))[x] == if x.id != id then multiset(items)[x] else 0
    ensures forall i :: 0 <= i < |items| && items[i].id != id ==> items[i] in Remove(items, id)
  {
    FilterExact(NotId(id), items);
    assert forall i :: 0 <= i < |items| ==> multiset(items)[items[i]] > 0;
  }

  /** Removing an id that no line carries is a no-op. */
  lemma RemoveAbsent(items: seq<Item>, id: int)
    requires !HasId(items, id)
    ensures Remove(items, id) == items
  {
    FilterKeepsAll(NotId(id), items);
  }

  lemma RemoveIdempotent(items: seq<Item>, id: int)
    ensures Remove(Remove(items, id), id) == Remove(items, id)
  {
    RemoveAbsent(Remove(items, id), id);
  }

  /** With one line per id, removing an id deletes exactly its line. */
  lemma RemoveAt(items: seq<Item>, k: nat)
    requires DistinctIds(items) && k < |items|
    ensures Remove(items, items[k].id) == items[..k] + items[k + 1..]
  {
    var x := items[k];
    var a, b := items[..k], items[k + 1..];
    assert items == a + [x] + b;
    assert forall i :: 0 <= i < |a| ==> a[i] == items[i] && NotId(x.id)(a[i]);
    assert forall i :: 0 <= i < |b| ==> b[i] == items[k + 1 + i] && NotId(x.id)(b[i]);
    FilterDropsOne(NotId(x.id), a, x, b);
  }

  lemma RemoveTotals(items: seq<Item>, k: nat)
    requires DistinctIds(items) && k < |items|
    ensures Total(Remove(items, items[k].id)) == Total(items) - items[k].quantity
    ensures Value(Remove(items, items[k].id)) == Value(items) - items[k].price * items[k].quantity
  {
    RemoveAt(items, k);
    SumByDelete(Quantity, items, k);
    SumByDelete(LineValue, items, k);
  }

  lemma RemovePreserves(items: seq<Item>, id: int)
    requires WellFormed(items)
    ensures WellFormed(Remove(items, id))
  {
    match FindIndex(items, id)
    case Some(k) =>
      RemoveAt(items, k);
      var r := items[..k] + items[k + 1..];
      assert forall i :: 0 <= i < |r| ==> r[i] == items[if i < k then i else i + 1];
    case None =>
      RemoveAbsent(items, id);
  }

  // ---------------------------------------------------------------------------
  // updateQuantity

  lemma UpdateNonPositive(items: seq<Item>, id: int, q: int)
    requires q <= 0
    ensures Update(items, id, q) == Remove(items, id)
  {
  }

  lemma UpdateExisting(items: seq<Item>, k: nat, q: int)
    requires DistinctIds(items) && k < |items| && q > 0
    ensures Update(items, items[k].id, q) == items[k := items[k].(quantity := q)]
  {
  }

  /** Updating an id that no line carries is a no-op, whatever the quantity. */
  lemma UpdateAbsent(items: seq<Item>, id: int, q: int)
    requires !HasId(items, id)
    ensures Update(items, id, q) == items
  {
    if q <= 0 {
      RemoveAbsent(items, id);
    }
  }

  lemma UpdateTotals(items: seq<Item>, k: nat, q: int)
    requires DistinctIds(items) && k < |items| && q > 0
    ensures Total(Update(items, items[k].id, q)) == Total(items) - items[k].quantity + q
    ensures Value(Update(items, items[k].id, q)) == Value(items) - items[k].price * items[k].quantity + items[k].price * q
  {
    UpdateExisting(items, k, q);
    SumByUpdate(Quantity, items, k, items[k].(quantity := q));
    SumByUpdate(LineValue, items, k, items[k].(quantity := q));
  }

  lemma UpdatePreserves(items: seq<Item>, id: int, q: int)
    requires WellFormed(items)
    ensures WellFormed(Update(items, id, q))
  {
    if q <= 0 {
      RemovePreserves(items, id);
    } else {
      match FindIndex(items, id)
      case Some(k) => UpdateExisting(items, k, q);
      case None => UpdateAbsent(items, id, q);
    }
  }

  // ---------------------------------------------------------------------------
  // Aggregates

  lemma EmptyCart()
    ensures Total([]) == 0 && Value([]) == 0
  {
  }

  /** In a well-formed cart there are at least as many units as lines. */
  lemma {:induction false} TotalAtLeastLines(items: seq<Item>)
    requires WellFormed(items)
    ensures Total(items) >= |items|
    decreases |items|
  {
    if items != [] {
      var init := items[..|items| - 1];
      assert WellFormed(init) by {
        assert forall i :: 0 <= i < |init| ==> init[i] == items[i];
      }
      TotalAtLeastLines(init);
    }
  }

  /** With no negative prices, a well-formed cart is never worth less than nothing. */
  lemma {:induction false} ValueNonNegative(items: seq<Item>)
    requires WellFormed(items)
    requires forall i :: 0 <= i < |items| ==> items[i].price >= 0
    ensures Value(items) >= 0
    decreases |items|
  {
    if items != [] {
      var init := items[..|items| - 1];
      assert WellFormed(init) && forall i :: 0 <= i < |init| ==> init[i].price >= 0 by {
        assert forall i :: 0 <= i < |init| ==> init[i] == items[i];
      }
      ValueNonNegative(init);
    }
  }

  // ---------------------------------------------------------------------------
  // Reachable carts

  /** A user interaction that changes the cart. */
  datatype Action = AddAction(product: Product) | RemoveAction(id: int) | UpdateAction(id: int, quantity: int)

  function Step(items: seq<Item>, a: Action): (r: seq<Item>) {
    match a
    case AddAction(p) => Add(items, p)
    case RemoveAction(id) => Remove(items, id)
    case UpdateAction(id, q) => Update(items, id, q)
  }

  function Run(items: seq<Item>, actions: seq<Action>): (r: seq<Item>)
    decreases |actions|
  {
    if actions == [] then items else Run(Step(items, actions[0]), actions[1..])
  }

  lemma {:induction false} RunPreserves(items: seq<Item>, actions: seq<Action>)
    requires WellFormed(items)
    ensures WellFormed(Run(items, actions))
    decreases |actions|
  {
    if actions != [] {
      match actions[0] {
        case AddAction(p) => AddPreserves(items, p);
        case RemoveAction(id) => RemovePreserves(items, id);
        case UpdateAction(id, q) => UpdatePreserves(items, id, q);
      }
      RunPreserves(Step(items, actions[0]), actions[1..]);
    }
  }

  /** Every cart reachable from the seed cart has one line per id and no quantity below 1. */
  lemma ReachableWellFormed(actions: seq<Action>)
    ensures WellFormed(Run(Seed, actions))
  {
    RunPreserves(Seed, actions);
  }

  /** Adding the office PC to the seed cart, then setting the gaming PC's quantity to 3. */
  lemma SeedScenario()
    ensures |Add(Seed, Product(2, "Office PC", 699))| == 2
    ensures Total(Add(Seed, Product(2, "Office PC", 699))) == 2
    ensures Value(Add(Seed, Product(2, "Office PC", 699))) == 1299 + 699
    ensures Total(Update(Add(Seed, Product(2, "Office PC", 699)), 1, 3)) == 4
    ensures Value(Update(Add(Seed, Product(2, "Office PC", 699)), 1, 3)) == 1299 * 3 + 699
  {
    var office := Product(2, "Office PC", 699);
    var c1 := Add(Seed, office);
    AddNew(Seed, office);
    assert c1 == [Item(1, "Gaming PC", 1299, 1), Item(2, "Office PC", 699, 1)];
    AddTotal(Seed, office);
    AddValue(Seed, office);
    var c2 := Update(c1, 1, 3);
    UpdateTotals(c1, 0, 3);
  }

  // ---------------------------------------------------------------------------
  // The store

  /** The cart provider's state cell; each mutator replaces `items` with the next list. */
  class CartStore {
    var items: seq<Item>

    ghost predicate Valid()
      reads this
    {
      WellFormed(items)
    }

    constructor ()
      ensures Valid() && items == Seed
    {
      items := Seed;
    }

    method AddToCart(product: Product)
      requires Valid()
      modifies this
      ensures Valid() && items == Add(old(items), product)
    {
      AddPreserves(items, product);
      items := Add(items, product);
    }

    method RemoveFromCart(id: int)
      requires Valid()
      modifies this
      ensures Valid() && items == Remove(old(items), id)
    {
      RemovePreserves(items, id);
      items := Remove(items, id);
    }

    method UpdateQuantity(id: int, newQuantity: int)
      requires Valid()
      modifies this
      ensures Valid() && items == Update(old(items), id, newQuantity)
    {
      if newQuantity <= 0 {
        RemoveFromCart(id);
        return;
      }
      UpdatePreserves(items, id, newQuantity);
      items := SetQuantity(items, id, newQuantity);
    }

    /** Folds the quantities from the left, as the `reduce` does. */
    method GetCartTotal() returns (total: int)
      ensures total == Total(items)
    {
      total := 0;
      for i := 0 to |items|
        invariant total == Total(items[..i])
      {
        assert items[..i + 1][..i] == items[..i];
        total := total + items[i].quantity;
      }
      assert items[..|items|] == items;
    }

    /** Folds price times quantity from the left, as the `reduce` does. */
    method GetCartValue() returns (value: int)
      ensures value == Value(items)
    {
      value := 0;
      for i := 0 to |items|
        invariant value == Value(items[..i])
      {
        assert items[..i + 1][..i] == items[..i];
        value := value + items[i].price * items[i].quantity;
      }
      assert items[..|items|] == items;
    }
  }
}
