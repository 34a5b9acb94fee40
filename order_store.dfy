// Order persistence: `placeOrder` builds a new order record with status
// "pending" and appends it to the "orders" collection, which assigns the id.
// The document database is modelled as a map from document id to record; the
// write itself is an abstract success or failure, and the id an abstract
// fresh key.
module OrderStore {

  import opened Wrappers
  import Cart

  /** Lifecycle status of an order. */
  datatype Status = Pending | Confirmed | Shipped | Delivered | Cancelled

  datatype Address = Address(street: string, city: string, state: string, pincode: string, country: string)

  /** A stored order document; `createdAt` is the client clock's time in seconds at the write. */
  datatype OrderRecord = OrderRecord(
    userId: string,
    name: string,
    phone: string,
    address: Address,
    items: seq<Cart.CartItem>,
    total: int,
    status: Status,
    createdAt: int)

  datatype StoreError = WriteFailed

  /**
   * The record `placeOrder` hands to the collection: it keeps every argument as
   * given, starts out pending and is stamped with the clock.
   */
  function NewOrder(userId: string, name: string, phone: string, address: Address,
                    items: seq<Cart.CartItem>, total: int, now: int): (rec: OrderRecord)
    ensures rec.status == Pending && rec.createdAt == now
    ensures rec.userId == userId && rec.name == name && rec.phone == phone
    ensures rec.address == address && rec.items == items && rec.total == total
  {
    OrderRecord(userId, name, phone, address, items, total, Pending, now)
  }

  /** The stored total is the one passed in, even when it disagrees with the items. */
  lemma TotalNotRecomputed()
    ensures var items := [Cart.CartItem(1, "Tee", 50, "", 2)];
            var rec := NewOrder("u", "n", "p", Address("", "", "", "", ""), items, 7, 0);
            rec.total == 7 && Cart.LineSum(items) == 100
  {
  }

  /** Some natural number exceeds the length of every key. */
  lemma {:induction false} LengthBound(keys: set<string>) returns (n: nat)
    ensures forall k :: k in keys ==> |k| < n
    decreases |keys|
  {
    if keys == {} {
      n := 0;
    } else {
      var k :| k in keys;
      var m := LengthBound(keys - {k});
      n := if m > |k| then m else |k| + 1;
    }
  }

  /** A finite collection always leaves some id unused. */
  lemma FreshIdExists(keys: set<string>)
    ensures exists id: string :: id !in keys
  {
    var n := LengthBound(keys);
    var id: string := seq(n, _ => 'x');
    assert id !in keys;
  }

  /** The "orders" collection, keyed by document id. */
  class OrderCollection {
    var docs: map<string, OrderRecord>

    constructor ()
      ensures docs == map[]
    {
      docs := map[];
    }

    /**
     * `placeOrder`: on a successful write exactly one new record is added
     * under an id the collection chose and that id is returned; existing
     * records are untouched. A failed write changes nothing.
     */
    method PlaceOrder(userId: string, name: string, phone: string, address: Address,
                      items: seq<Cart.CartItem>, total: int, now: int, writeOk: bool)
      returns (r: Result<string, StoreError>)
      modifies this
      ensures writeOk ==> r.Ok? && r.value !in old(docs)
      ensures writeOk ==> docs == old(docs)[r.value := NewOrder(userId, name, phone, address, items, total, now)]
      ensures !writeOk ==> r == Err(WriteFailed) && docs == old(docs)
    {
      if !writeOk {
        return Err(WriteFailed);
      }
      FreshIdExists(docs.Keys);
      var id: string :| id !in docs;
      docs := docs[id := NewOrder(userId, name, phone, address, items, total, now)];
      r := Ok(id);
    }
  }

  /** Placing an order grows the collection by exactly one and keeps every older record. */
  method PlaceOrderAppendsOne(store: OrderCollection, userId: string, name: string, phone: string,
                              address: Address, items: seq<Cart.CartItem>, total: int, now: int)
    returns (id: string)
    modifies store
    ensures id !in old(store.docs) && id in store.docs
    ensures store.docs[id].status == Pending && store.docs[id].total == total
    ensures |store.docs| == |old(store.docs)| + 1
    ensures forall k :: k in old(store.docs) ==> k in store.docs && store.docs[k] == old(store.docs)[k]
  {
    var r := store.PlaceOrder(userId, name, phone, address, items, total, now, true);
    id := r.value;
  }
}
