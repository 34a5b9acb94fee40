// The order-history panel: the fetched orders kept newest first, the status
// filter, the local cancellation update, the four-step status timeline and the
// guard that offers cancellation only for pending orders.
module Orders {

  import opened Wrappers
  import Cart
  import opened OrderStore

  /** An order as the panel holds it: the document id joined to the stored fields. */
  datatype Order = Order(
    id: string,
    userId: string,
    name: string,
    phone: string,
    address: Address,
    items: seq<Cart.CartItem>,
    total: int,
    status: Status,
    createdAt: int)

  /** The stored fields of an order, without its document id. */
  function Record(o: Order): OrderRecord
  {
    OrderRecord(o.userId, o.name, o.phone, o.address, o.items, o.total, o.status, o.createdAt)
  }

  /** A fetched document as an order: its id joined to its data, which is kept whole. */
  function FromDoc(id: string, rec: OrderRecord): (o: Order)
    ensures o.id == id && Record(o) == rec
  {
    Order(id, rec.userId, rec.name, rec.phone, rec.address, rec.items, rec.total, rec.status, rec.createdAt)
  }

  /** The query's documents, each as an order, in the order they arrived. */
  function FromDocs(docs: seq<(string, OrderRecord)>): (r: seq<Order>)
    ensures |r| == |docs|
    ensures forall i :: 0 <= i < |docs| ==> r[i] == FromDoc(docs[i].0, docs[i].1)
  {
    if docs == [] then [] else [FromDoc(docs[0].0, docs[0].1)] + FromDocs(docs[1..])
  }

  // ---------------------------------------------------------------------------
  // Sorting by creation time, largest first

  ghost predicate NewestFirst(s: seq<Order>)
  {
    forall i, j :: 0 <= i < j < |s| ==> s[i].createdAt >= s[j].createdAt
  }

  /** Puts `o` before the first order that is not newer than it. */
  function Insert(o: Order, s: seq<Order>): (r: seq<Order>)
    ensures multiset(r) == multiset(s) + multiset{o}
  {
    if s == [] || s[0].createdAt <= o.createdAt then
      [o] + s
    else
      assert s == [s[0]] + s[1..];
      [s[0]] + Insert(o, s[1..])
  }

  /** No order of `s` was created after `t`. */
  ghost predicate NoneNewerThan(s: seq<Order>, t: int)
  {
    forall i :: 0 <= i < |s| ==> s[i].createdAt <= t
  }

  /** Putting an order no older than the rest in front keeps a list newest first. */
  lemma ConsNewestFirst(o: Order, s: seq<Order>)
    requires NewestFirst(s) && NoneNewerThan(s, o.createdAt)
    ensures NewestFirst([o] + s)
  {
    var r := [o] + s;
    forall i, j | 0 <= i < j < |r|
      ensures r[i].createdAt >= r[j].createdAt
    {
      assert r[j] == s[j - 1];
      if i > 0 {
        assert r[i] == s[i - 1];
      }
    }
  }

  lemma {:induction false} InsertNoneNewer(o: Order, s: seq<Order>, t: int)
    requires NoneNewerThan(s, t) && o.createdAt <= t
    ensures NoneNewerThan(Insert(o, s), t)
  {
    if s != [] && s[0].createdAt > o.createdAt {
      InsertNoneNewer(o, s[1..], t);
      assert Insert(o, s) == [s[0]] + Insert(o, s[1..]);
    }
  }

  lemma {:induction false} InsertNewestFirst(o: Order, s: seq<Order>)
    requires NewestFirst(s)
    ensures NewestFirst(Insert(o, s))
  {
    if s == [] || s[0].createdAt <= o.createdAt {
      assert NoneNewerThan(s, o.createdAt) by {
        forall i | 0 <= i < |s| ensures s[i].createdAt <= o.createdAt {
          assert s[0].createdAt >= s[i].createdAt;
        }
      }
      ConsNewestFirst(o, s);
    } else {
      var rest := s[1..];
      assert NewestFirst(rest) by {
        forall i, j | 0 <= i < j < |rest| ensures rest[i].createdAt >= rest[j].createdAt {
          assert rest[i] == s[i + 1] && rest[j] == s[j + 1];
        }
      }
      assert NoneNewerThan(rest, s[0].createdAt) by {
        forall i | 0 <= i < |rest| ensures rest[i].createdAt <= s[0].createdAt {
          assert rest[i] == s[i + 1];
        }
      }
      InsertNewestFirst(o, rest);
      InsertNoneNewer(o, rest, s[0].createdAt);
      ConsNewestFirst(s[0], Insert(o, rest));
    }
  }

  /**
   * The sort whose comparator puts the larger creation time first. It keeps
   * orders with equal creation time in their fetched order; that is not proved.
   */
  function SortByNewest(s: seq<Order>): (r: seq<Order>)
    ensures multiset(r) == multiset(s)
  {
    if s == [] then []
    else
      assert s == [s[0]] + s[1..];
      Insert(s[0], SortByNewest(s[1..]))
  }

  /** The stored list is ordered by creation time, largest first. */
  lemma {:induction false} SortNewestFirst(s: seq<Order>)
    ensures NewestFirst(SortByNewest(s))
  {
    if s != [] {
      SortNewestFirst(s[1..]);
      InsertNewestFirst(s[0], SortByNewest(s[1..]));
    }
  }

  lemma SortedKeepsLength(s: seq<Order>)
    ensures |SortByNewest(s)| == |s|
  {
    assert |multiset(SortByNewest(s))| == |multiset(s)|;
  }

  // ---------------------------------------------------------------------------
  // Status filter

  /** The filter buttons: "all" or one exact status. */
  datatype Filter = All | Only(status: Status)

  predicate Shows(f: Filter, o: Order)
  {
    f.All? || o.status == f.status
  }

  /** The orders the filter shows, in their stored order; "all" shows every order. */
  function FilterOrders(s: seq<Order>, f: Filter): (r: seq<Order>)
    ensures f.All? ==> r == s
    ensures forall i :: 0 <= i < |r| ==> Shows(f, r[i])
    ensures forall o :: multiset(r)[o] == if Shows(f, o) then multiset(s)[o] else 0
  {
    if s == [] then []
    else
      assert s == [s[0]] + s[1..];
      (if Shows(f, s[0]) then [s[0]] else []) + FilterOrders(s[1..], f)
  }

  /** Filtering keeps the relative order: it distributes over concatenation. */
  lemma {:induction false} FilterAppend(a: seq<Order>, b: seq<Order>, f: Filter)
    ensures FilterOrders(a + b, f) == FilterOrders(a, f) + FilterOrders(b, f)
  {
    if a == [] {
      assert a + b == b;
    } else {
      assert (a + b)[0] == a[0];
      assert (a + b)[1..] == a[1..] + b;
      FilterAppend(a[1..], b, f);
    }
  }

  /** Applying the same filter twice is the same as applying it once. */
  lemma {:induction false} FilterIdempotent(s: seq<Order>, f: Filter)
    ensures FilterOrders(FilterOrders(s, f), f) == FilterOrders(s, f)
  {
    if s != [] {
      var rest := FilterOrders(s[1..], f);
      FilterIdempotent(s[1..], f);
      if Shows(f, s[0]) {
        var once := [s[0]] + rest;
        assert FilterOrders(s, f) == once;
        assert once[0] == s[0] && once[1..] == rest;
      } else {
        assert FilterOrders(s, f) == rest;
      }
    }
  }

  // ---------------------------------------------------------------------------
  // Local cancellation

  function MarkCancelled(o: Order, id: string): Order
  {
    if o.id == id then o.(status := Cancelled) else o
  }

  /** The list with each order of the given id marked cancelled, position by position. */
  function CancelLocal(s: seq<Order>, id: string): (r: seq<Order>)
    ensures |r| == |s|
    ensures forall i :: 0 <= i < |s| ==> r[i] == MarkCancelled(s[i], id)
  {
    if s == [] then [] else [MarkCancelled(s[0], id)] + CancelLocal(s[1..], id)
  }

  /** Every order with the id ends up cancelled; every other order is unchanged, and only the status changes. */
  lemma CancelLocalEffect(s: seq<Order>, id: string, i: int)
    requires 0 <= i < |s|
    ensures s[i].id == id ==> CancelLocal(s, id)[i].status == Cancelled
    ensures s[i].id != id ==> CancelLocal(s, id)[i] == s[i]
    ensures CancelLocal(s, id)[i].(status := s[i].status) == s[i]
  {
  }

  /** Cancelling twice gives the same list as cancelling once. */
  lemma CancelLocalIdempotent(s: seq<Order>, id: string)
    ensures CancelLocal(CancelLocal(s, id), id) == CancelLocal(s, id)
  {
  }

  /** After the update no order with that id is listed under the "pending" filter. */
  lemma CancelledLeavesPending(s: seq<Order>, id: string)
    ensures forall o :: o in FilterOrders(CancelLocal(s, id), Only(Pending)) ==> o.id != id
  {
    var r := CancelLocal(s, id);
    forall o | o in FilterOrders(r, Only(Pending))
      ensures o.id != id
    {
      assert multiset(FilterOrders(r, Only(Pending)))[o] > 0;
      assert o in r;
      var i :| 0 <= i < |r| && r[i] == o;
      assert r[i] == MarkCancelled(s[i], id);
    }
  }

  // ---------------------------------------------------------------------------
  // Status timeline and the cancel guard

  /** `allStatuses`: the forward timeline, without the cancelled side branch. */
  const Timeline: seq<Status> := [Pending, Confirmed, Shipped, Delivered]

  /** The array method `indexOf`: the first position of `x`, or -1 when it is absent. */
  function IndexOf(xs: seq<Status>, x: Status): (r: int)
    ensures -1 <= r < |xs|
    ensures r == -1 <==> x !in xs
    ensures r >= 0 ==> xs[r] == x && x !in xs[..r]
  {
    if xs == [] then -1
    else if xs[0] == x then 0
    else
      var k := IndexOf(xs[1..], x);
      assert xs == [xs[0]] + xs[1..];
      if k == -1 then -1
      else
        assert xs[..k + 1] == [xs[0]] + xs[1..][..k];
        k + 1
  }

  /** A timeline dot is lit when its index is at most the index of the current status. */
  predicate StepActive(s: Status, idx: int)
  {
    IndexOf(Timeline, s) >= idx
  }

  /**
   * The lit/unlit pattern of the four timeline steps: a step is lit exactly
   * when the current status is that step or a later one.
   */
  function ActiveSteps(s: Status): (r: seq<bool>)
    ensures |r| == |Timeline|
    ensures forall idx :: 0 <= idx < |r| ==> (r[idx] <==> s in Timeline[idx..])
  {
    assert Timeline == [Pending, Confirmed, Shipped, Delivered];
    assert Timeline[1..] == [Confirmed, Shipped, Delivered];
    assert Timeline[2..] == [Shipped, Delivered];
    assert Timeline[3..] == [Delivered];
    seq(|Timeline|, idx => StepActive(s, idx))
  }

  /** The lit steps form a prefix of length indexOf + 1; a cancelled order lights none. */
  lemma ActiveStepsPrefix(s: Status)
    ensures |ActiveSteps(s)| == 4
    ensures var k := IndexOf(Timeline, s) + 1;
            0 <= k <= 4 && ActiveSteps(s) == seq(k, _ => true) + seq(4 - k, _ => false)
    ensures s == Cancelled <==> ActiveSteps(s) == [false, false, false, false]
    ensures s != Cancelled ==> Timeline[IndexOf(Timeline, s)] == s
  {
    var a := ActiveSteps(s);
    var k := IndexOf(Timeline, s) + 1;
    var t := seq(k, _ => true) + seq(4 - k, _ => false);
    forall idx | 0 <= idx < 4
      ensures a[idx] == t[idx]
    {
      assert a[idx] == StepActive(s, idx);
    }
    assert a == t;
    assert Timeline == [Pending, Confirmed, Shipped, Delivered];
    if s == Cancelled {
      assert s !in Timeline;
    } else {
      assert s in Timeline;
      assert a[0];
    }
  }

  /** The detail view offers "Cancel Order" only for a pending order. */
  function OffersCancel(o: Order): (b: bool)
    ensures b <==> IndexOf(Timeline, o.status) == 0
  {
    o.status == Pending
  }

  /** Cancellation is offered exactly when only the first timeline step is lit. */
  lemma OffersCancelAtFirstStep(o: Order)
    ensures OffersCancel(o) <==> ActiveSteps(o.status) == [true, false, false, false]
  {
    ActiveStepsPrefix(o.status);
    var k := IndexOf(Timeline, o.status) + 1;
    if ActiveSteps(o.status) == [true, false, false, false] {
      assert ActiveSteps(o.status)[0] && !ActiveSteps(o.status)[1];
      assert k == 1;
    }
  }

  /** An order placed through the store shows as pending with cancellation on offer. */
  lemma PlacedOrderIsCancellable(id: string, userId: string, name: string, phone: string,
                                 address: Address, items: seq<Cart.CartItem>, total: int, now: int)
    ensures var o := FromDoc(id, NewOrder(userId, name, phone, address, items, total, now));
            OffersCancel(o) && o.id == id && o.total == total && FilterOrders([o], Only(Pending)) == [o]
  {
  }

  /** Once cancelled locally, no order with that id is offered for cancellation again. */
  lemma NoCancelTwice(s: seq<Order>, id: string)
    ensures forall i :: 0 <= i < |s| && s[i].id == id ==> !OffersCancel(CancelLocal(s, id)[i])
  {
  }

  // ---------------------------------------------------------------------------
  // The panel's state

  class OrdersPanel {
    var orders: seq<Order>
    var loading: bool
    var filter: Filter
    var selectedOrder: Option<Order>

    constructor ()
      ensures orders == [] && loading && filter == All && selectedOrder == None
    {
      orders, loading, filter, selectedOrder := [], true, All, None;
    }

    /** `filteredOrders`, the list the panel shows: every stored order the current filter passes. */
    function FilteredOrders(): (r: seq<Order>)
      reads this
      ensures filter.All? ==> r == orders
      ensures forall o :: o in r <==> o in orders && Shows(filter, o)
    {
      assert forall o :: o in FilterOrders(orders, filter) <==> multiset(FilterOrders(orders, filter))[o] > 0;
      assert forall o :: o in orders <==> multiset(orders)[o] > 0;
      FilterOrders(orders, filter)
    }

    /**
     * `fetchOrders`: with no signed-in user nothing happens; otherwise the
     * query result, if it arrives, is stored newest first, and loading ends
     * either way. `fetched` holds the query's documents as (id, data) pairs,
     * and is None when the query fails.
     */
    method FetchOrders(user: Option<string>, fetched: Option<seq<(string, OrderRecord)>>)
      modifies this
      ensures user.None? ==> orders == old(orders) && loading == old(loading)
      ensures user.Some? ==> !loading
      ensures user.Some? && fetched.Some? ==> orders == SortByNewest(FromDocs(fetched.value))
      ensures user.Some? && fetched.Some? ==> NewestFirst(orders) && multiset(orders) == multiset(FromDocs(fetched.value))
      ensures fetched.None? ==> orders == old(orders)
      ensures filter == old(filter) && selectedOrder == old(selectedOrder)
    {
      if user.None? {
        return;
      }
      loading := true;
      if fetched.Some? {
        var fetchedOrders := FromDocs(fetched.value);
        orders := SortByNewest(fetchedOrders);
        SortNewestFirst(fetchedOrders);
      }
      loading := false;
    }

    /** A filter button. */
    method SetFilter(f: Filter)
      modifies this
      ensures filter == f
      ensures orders == old(orders) && loading == old(loading) && selectedOrder == old(selectedOrder)
    {
      filter := f;
    }

    /** Clicking a listed order opens its details. */
    method SelectOrder(o: Order)
      requires o in FilteredOrders()
      modifies this
      ensures selectedOrder == Some(o)
      ensures orders == old(orders) && loading == old(loading) && filter == old(filter)
    {
      selectedOrder := Some(o);
    }

    /** "Back to Orders". */
    method ClearSelection()
      modifies this
      ensures selectedOrder == None
      ensures orders == old(orders) && loading == old(loading) && filter == old(filter)
    {
      selectedOrder := None;
    }

    /**
     * `cancelOrder`: `remoteOk` says whether the status write succeeded. On
     * success the local list and, if it is that order, the selection are marked
     * cancelled; on failure nothing changes.
     */
    method CancelOrder(orderId: string, remoteOk: bool)
      modifies this
      ensures remoteOk ==> orders == CancelLocal(old(orders), orderId)
      ensures remoteOk && old(selectedOrder).Some? && old(selectedOrder).value.id == orderId
              ==> selectedOrder == Some(old(selectedOrder).value.(status := Cancelled))
      ensures remoteOk && !(old(selectedOrder).Some? && old(selectedOrder).value.id == orderId)
              ==> selectedOrder == old(selectedOrder)
      ensures !remoteOk ==> orders == old(orders) && selectedOrder == old(selectedOrder)
      ensures loading == old(loading) && filter == old(filter)
    {
      if !remoteOk {
        return;
      }
      orders := CancelLocal(orders, orderId);
      if selectedOrder.Some? && selectedOrder.value.id == orderId {
        selectedOrder := Some(selectedOrder.value.(status := Cancelled));
      }
    }

    /**
     * The "Cancel Order" button of the detail view: present only when the
     * selected order is pending, and then it cancels that order.
     */
    method PressCancel(remoteOk: bool) returns (offered: bool)
      modifies this
      ensures offered <==> old(selectedOrder).Some? && OffersCancel(old(selectedOrder).value)
      ensures !offered || !remoteOk ==> orders == old(orders) && selectedOrder == old(selectedOrder)
      ensures offered && remoteOk ==> orders == CancelLocal(old(orders), old(selectedOrder).value.id)
      ensures offered && remoteOk ==> selectedOrder == Some(old(selectedOrder).value.(status := Cancelled))
      ensures offered && remoteOk ==> !OffersCancel(selectedOrder.value)
      ensures loading == old(loading) && filter == old(filter)
    {
      offered := selectedOrder.Some? && OffersCancel(selectedOrder.value);
      if offered {
        CancelOrder(selectedOrder.value.id, remoteOk);
      }
    }
  }
}
