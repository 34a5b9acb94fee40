// The cart side panel: its subtotal and the requests its quantity buttons
// send to the cart store. The store itself lives outside this model; only the
// arguments the panel passes to it are modelled.
module Cart {

  import opened Wrappers

  /** One line of the cart. Prices are in minor currency units. */
  datatype CartItem = CartItem(id: int, name: string, price: int, image: string, quantity: int)

  /** A call the panel makes on the cart store. */
  datatype CartRequest =
    | UpdateQuantity(id: int, quantity: int)
    | RemoveFromCart(id: int)

  /** Reference definition of the subtotal: the sum of price * quantity. */
  function LineSum(items: seq<CartItem>): int
  {
    if items == [] then 0 else items[0].price * items[0].quantity + LineSum(items[1..])
  }

  /**
   * The panel's `reduce`: a left fold that adds each line's price times
   * quantity to the running total. It agrees with the reference sum.
   */
  function Reduce(acc: int, items: seq<CartItem>): (r: int)
    ensures r == acc + LineSum(items)
    decreases |items|
  {
    if items == [] then acc
    else Reduce(acc + items[0].price * items[0].quantity, items[1..])
  }

  /** Subtotal shown by the panel: the sum over the items, and 0 for a missing cart. */
  function Subtotal(cart: Option<seq<CartItem>>): (r: int)
    ensures cart.None? ==> r == 0
    ensures cart.Some? ==> r == LineSum(cart.value)
    // The empty-cart case of the line above, spelled out: `reduce` over no items gives 0.
    ensures cart == Some([]) ==> r == 0
  {
    match cart
    case None => 0
    case Some(items) => Reduce(0, items)
  }

  lemma {:induction false} LineSumAppend(a: seq<CartItem>, b: seq<CartItem>)
    ensures LineSum(a + b) == LineSum(a) + LineSum(b)
  {
    if a == [] {
      assert a + b == b;
    } else {
      assert (a + b)[1..] == a[1..] + b;
      LineSumAppend(a[1..], b);
    }
  }

  /** Appending one item adds exactly its price * quantity. */
  lemma SubtotalAppend(items: seq<CartItem>, item: CartItem)
    ensures Subtotal(Some(items + [item])) == Subtotal(Some(items)) + item.price * item.quantity
  {
    LineSumAppend(items, [item]);
    assert LineSum([item]) == item.price * item.quantity;
  }

  /** With non-negative prices and quantities the subtotal is non-negative. */
  lemma {:induction false} LineSumNonNegative(items: seq<CartItem>)
    requires forall i :: 0 <= i < |items| ==> items[i].price >= 0 && items[i].quantity >= 0
    ensures LineSum(items) >= 0
  {
    if items != [] {
      LineSumNonNegative(items[1..]);
    }
  }

  /** Two lines at 50 x 2 and 30 x 1 make 130; without the second, 100; at 50 x 3, 150. */
  lemma SubtotalScenario()
    ensures Subtotal(Some([CartItem(1, "A", 50, "", 2), CartItem(2, "B", 30, "", 1)])) == 130
    ensures Subtotal(Some([CartItem(1, "A", 50, "", 2)])) == 100
    ensures Subtotal(Some([CartItem(1, "A", 50, "", 3)])) == 150
  {
  }

  /** The "-" button: disabled at quantity <= 1, otherwise asks for quantity - 1. */
  function DecrementRequest(item: CartItem): (r: Option<CartRequest>)
    ensures r.Some? <==> item.quantity > 1
    ensures r.Some? ==> r.value.UpdateQuantity? && r.value.id == item.id
    ensures r.Some? ==> r.value.quantity >= 1 && r.value.quantity < item.quantity
  {
    if item.quantity <= 1 then None else Some(UpdateQuantity(item.id, item.quantity - 1))
  }

  /** The "+" button: always enabled, asks for one more of the same item. */
  function IncrementRequest(item: CartItem): (r: CartRequest)
    ensures r.UpdateQuantity? && r.id == item.id && r.quantity > item.quantity
  {
    UpdateQuantity(item.id, item.quantity + 1)
  }

  /** The "Remove" button: asks to remove the item by id. */
  function RemoveRequest(item: CartItem): (r: CartRequest)
    ensures r.RemoveFromCart? && r.id == item.id
  {
    RemoveFromCart(item.id)
  }

  /**
   * The item as the cart store would hold it after an update request. This
   * assumes that `updateQuantity` stores exactly the quantity it is asked for;
   * the store itself is not part of this model.
   */
  function Requested(item: CartItem, r: CartRequest): CartItem
    requires r.UpdateQuantity? && r.id == item.id
  {
    item.(quantity := r.quantity)
  }

  /**
   * "+" then "-" comes back to the starting quantity, for any item the panel
   * shows, assuming the store applies the "+" request as `Requested` says.
   */
  lemma IncrementThenDecrement(item: CartItem)
    requires item.quantity >= 1
    ensures DecrementRequest(Requested(item, IncrementRequest(item)))
            == Some(UpdateQuantity(item.id, item.quantity))
  {
  }

  /**
   * "-" then "+" comes back to the starting quantity whenever "-" is enabled,
   * assuming the store applies the "-" request as `Requested` says.
   */
  lemma DecrementThenIncrement(item: CartItem)
    requires item.quantity > 1
    ensures IncrementRequest(Requested(item, DecrementRequest(item).value))
            == UpdateQuantity(item.id, item.quantity)
  {
  }

  /** Neither button ever asks for a quantity below 1 when the item has one. */
  lemma ButtonsKeepFloor(item: CartItem)
    requires item.quantity >= 1
    ensures IncrementRequest(item).quantity >= 1
    ensures DecrementRequest(item).Some? ==> DecrementRequest(item).value.quantity >= 1
  {
  }

  /** Removal does not depend on the quantity of the item. */
  lemma RemoveIgnoresQuantity(item: CartItem, q: int)
    ensures RemoveRequest(item) == RemoveRequest(item.(quantity := q))
  {
  }
}
