# Storefront core, modelled in Dafny

A model of the small sequential logic inside a clothing storefront web app:

- **Order history** (`Orders`): the orders fetched for the signed-in user are kept
  newest first; a status filter ("all" or one exact status) picks what is listed; a
  successful cancellation marks the order `Cancelled` in the local list and in the
  open detail view; the four-step status timeline (pending, confirmed, shipped,
  delivered) lights the steps up to the `indexOf` of the current status; the
  "Cancel Order" button is offered only for pending orders.
- **Cart panel** (`Cart`): the subtotal is the `reduce` of price × quantity; the
  "−", "+" and "Remove" buttons pass `quantity - 1` (disabled at ≤ 1),
  `quantity + 1` and the item id to the cart store.
- **Order placement** (`OrderStore`): `placeOrder` builds a record with status
  `Pending` from its arguments and adds it to the "orders" collection under an id
  the collection chooses, and returns that id.
- **Payment-order endpoint** (`PaymentRoute`): rupees become paise (× 100), the
  currency defaults to "INR", capture is fixed at 1, and every failure answers 500.
- **Design editor** (`DesignEditor`): adding text and image objects, deleting and
  editing the selected object, and the pointer handlers that drag the last object.
- **Hero banner** (`HeroSlides`): the slide index, advanced modulo 3 on every tick.

Cart prices and order totals are integer minor units (the source uses floating-point amounts; see "Left out"). The payment request's amount is a whole number of rupees, which the endpoint turns into paise (× 100). Quantities and timestamps are integers. The order
status is the closed datatype `Pending | Confirmed | Shipped | Delivered | Cancelled`.
Calls into the database, the payment provider and the renderer are parameters:
`getDocs` is an optional list (None when the query fails), `updateDoc` and `addDoc`
are a success flag, the provider's order creation is a function from options to an
optional order, the JSON body is an optional record, a raycast is an optional
texture coordinate, and `Timestamp.now()` is a number passed in. The id `addDoc`
assigns is any key not yet in the collection.

The model follows the code where it is weaker than the storefront's intended
design. `placeOrder` does not check that a user is signed in, so no
"not authenticated" error is modelled for it. `cancelOrder` itself does not check
the status. Only the button guard does, so `OrdersPanel.CancelOrder` overwrites any
status and `OrdersPanel.PressCancel` carries the guard.

Files: `wrappers.dfy` (Option, Result), `cart.dfy`, `order_store.dfy`,
`my_orders.dfy`, `payment_route.dfy`, `design_editor.dfy`, `hero.dfy`.

## Model

| member | source | states |
|---|---|---|
| `Cart.Reduce` | src/components/CartModal.tsx:14 | the left fold from any accumulator equals the accumulator plus the recursive sum of price × quantity |
| `Cart.Subtotal` | src/components/CartModal.tsx:12-14 | the panel's subtotal is the sum of price × quantity over the cart items; a missing cart and an empty cart both give 0 |
| `Cart.LineSumAppend` | src/components/CartModal.tsx:14 | the sum over a concatenation is the sum of the two sums |
| `Cart.SubtotalAppend` | src/components/CartModal.tsx:14 | appending one item adds exactly its price × quantity to the subtotal |
| `Cart.LineSumNonNegative` | src/components/CartModal.tsx:14 | with non-negative prices and quantities the subtotal is non-negative |
| `Cart.SubtotalScenario` | src/components/CartModal.tsx:14 | 50 × 2 plus 30 × 1 is 130; 50 × 2 alone is 100; 50 × 3 is 150 |
| `Cart.DecrementRequest` | src/components/CartModal.tsx:52-56 | "−" issues a request exactly when quantity > 1, for the same id, asking for less but at least 1 |
| `Cart.IncrementRequest` | src/components/CartModal.tsx:60-62 | "+" always issues a quantity update for the same id asking for more |
| `Cart.RemoveRequest` | src/components/CartModal.tsx:66-68 | "Remove" asks to remove the item with that id |
| `Cart.IncrementThenDecrement` | src/components/CartModal.tsx:53-61 | "+" followed by "−" comes back to the starting quantity, assuming `updateQuantity` stores exactly the requested quantity (`Requested`); that "+" asks for exactly quantity + 1 follows from the request alone |
| `Cart.DecrementThenIncrement` | src/components/CartModal.tsx:53-61 | "−" followed by "+" comes back to the starting quantity, assuming `updateQuantity` stores exactly the requested quantity (`Requested`); so "−" asks for exactly quantity − 1 |
| `Cart.ButtonsKeepFloor` | src/components/CartModal.tsx:53-61 | for an item with quantity ≥ 1 no button asks for a quantity below 1 |
| `Cart.RemoveIgnoresQuantity` | src/components/CartModal.tsx:67 | the remove request does not depend on the item's quantity |
| `OrderStore.NewOrder` | src/lib/firestore.ts:37-46 | the new record has status pending, the clock's timestamp, and userId, name, phone, address, items and total exactly as passed |
| `OrderStore.TotalNotRecomputed` | src/lib/firestore.ts:33-42 | the stored total is the argument even when it differs from the sum over the items |
| `OrderStore.LengthBound` | src/lib/firestore.ts:48 | every finite set of ids has a length bound above all of them |
| `OrderStore.FreshIdExists` | src/lib/firestore.ts:48 | some id is always unused, so the collection can assign one |
| `OrderStore.OrderCollection.constructor` | src/lib/firestore.ts:35 | the model starts from an empty collection; the source only names the existing "orders" collection here, and `PlaceOrder`'s contract holds whatever the collection already contains |
| `OrderStore.OrderCollection.PlaceOrder` | src/lib/firestore.ts:27-50 | a successful write adds the new record under a previously unused id and returns that id, leaving every other record as it was; a failed write changes nothing |
| `OrderStore.PlaceOrderAppendsOne` | src/lib/firestore.ts:35-49 | placing an order grows the collection by exactly one pending record with the given total and keeps every older record |
| `Orders.FromDoc` | src/components/MyOrders.tsx:57 | the order carries the document's id, and its other fields are the document's data unchanged |
| `Orders.FromDocs` | src/components/MyOrders.tsx:57 | every fetched document becomes one order, at the same position, joined from its id and data |
| `Orders.Insert` | src/components/MyOrders.tsx:58 | inserting adds exactly that order to the list's multiset |
| `Orders.InsertNewestFirst` | src/components/MyOrders.tsx:58 | inserting into a list ordered newest first keeps it ordered |
| `Orders.SortByNewest` | src/components/MyOrders.tsx:58 | the sorted list is a permutation of the fetched list |
| `Orders.SortNewestFirst` | src/components/MyOrders.tsx:58 | the sorted list is ordered by creation seconds, largest first |
| `Orders.SortedKeepsLength` | src/components/MyOrders.tsx:58 | sorting keeps the number of orders |
| `Orders.FilterOrders` | src/components/MyOrders.tsx:69 | "all" keeps the whole list; otherwise every kept order has that status and each matching order is kept as often as it occurs |
| `Orders.FilterAppend` | src/components/MyOrders.tsx:69 | filtering distributes over concatenation, so the relative order is preserved |
| `Orders.FilterIdempotent` | src/components/MyOrders.tsx:69 | filtering twice by the same filter equals filtering once |
| `Orders.CancelLocal` | src/components/MyOrders.tsx:75 | the list keeps its length; each order with the id becomes cancelled and every other order is kept as it was |
| `Orders.CancelLocalEffect` | src/components/MyOrders.tsx:75 | the order with the id becomes cancelled, others are unchanged, and no field except the status changes |
| `Orders.CancelLocalIdempotent` | src/components/MyOrders.tsx:75 | cancelling twice gives the same list as cancelling once |
| `Orders.CancelledLeavesPending` | src/components/MyOrders.tsx:69-75 | after the update no order with that id appears under the "pending" filter |
| `Orders.IndexOf` | src/components/MyOrders.tsx:170 | the result is -1 exactly when the status is absent, and otherwise the first position holding it |
| `Orders.ActiveSteps` | src/components/MyOrders.tsx:169-170 | there is one entry per timeline step, and a step is lit exactly when the current status is that step or a later one |
| `Orders.ActiveStepsPrefix` | src/components/MyOrders.tsx:169-170 | the lit steps are a prefix of length indexOf + 1; a status lights no step if and only if it is cancelled |
| `Orders.OffersCancel` | src/components/MyOrders.tsx:201 | cancellation is offered exactly when the status stands at the first timeline position |
| `Orders.OffersCancelAtFirstStep` | src/components/MyOrders.tsx:169-201 | cancellation is offered if and only if only the first timeline step is lit, that is, for pending orders |
| `Orders.PlacedOrderIsCancellable` | src/lib/firestore.ts:44 | an order just placed is listed under "pending" and is offered for cancellation |
| `Orders.NoCancelTwice` | src/components/MyOrders.tsx:75-201 | after the local update the cancelled order is no longer offered for cancellation |
| `Orders.OrdersPanel.constructor` | src/components/MyOrders.tsx:45-48 | the panel starts with no orders, loading, the "all" filter and no selection |
| `Orders.OrdersPanel.FilteredOrders` | src/components/MyOrders.tsx:69 | under "all" the shown list is the stored list; otherwise an order is shown exactly when it is stored and has the chosen status |
| `Orders.OrdersPanel.FetchOrders` | src/components/MyOrders.tsx:50-67 | with no user nothing changes; with a user, the fetched documents are joined into orders and stored sorted newest first as a permutation of them, a failed fetch keeps the old list, and loading ends |
| `Orders.OrdersPanel.SetFilter` | src/components/MyOrders.tsx:114 | the filter becomes the chosen one and nothing else changes |
| `Orders.OrdersPanel.SelectOrder` | src/components/MyOrders.tsx:134 | a listed order becomes the selection and nothing else changes |
| `Orders.OrdersPanel.ClearSelection` | src/components/MyOrders.tsx:157 | the selection is cleared and nothing else changes |
| `Orders.OrdersPanel.CancelOrder` | src/components/MyOrders.tsx:72-82 | after a successful write the list is updated as by the local cancel and a selected order with that id becomes cancelled, any other selection untouched; after a failed write list and selection are unchanged |
| `Orders.OrdersPanel.PressCancel` | src/components/MyOrders.tsx:201-207 | the button acts exactly when the selected order is pending; on success the list is updated as by the local cancel, the selection becomes the same order with status cancelled and is no longer offered; otherwise nothing changes |
| `PaymentRoute.Currency` | src/app/api/payment/order/route.ts:15 | a missing or empty currency becomes "INR", a non-empty one passes through unchanged, and the result is never empty |
| `PaymentRoute.BuildOptions` | src/app/api/payment/order/route.ts:13-17 | the provider gets 100 × the amount, a whole number of paise that converts back to the requested rupees, capture 1 and the defaulted currency |
| `PaymentRoute.Post` | src/app/api/payment/order/route.ts:9-25 | the status is 200 or 500, and 200 exactly when the body parses and the provider creates an order |
| `PaymentRoute.PostSuccessReturnsOrder` | src/app/api/payment/order/route.ts:19-21 | on success the response is 200 with the provider's order exactly as returned |
| `PaymentRoute.PostFailureIs500` | src/app/api/payment/order/route.ts:22-25 | a parse failure or provider failure answers 500 with the error body and no order |
| `DesignEditor.NewText` | src/components/DesignEditor.tsx:199 | the added text object reads "Hello World" at font size 80, with scale 1, rotation 0, and no image size, position or colour |
| `DesignEditor.NewImage` | src/components/DesignEditor.tsx:204-207 | the added image object is the sample picture at 300 by 300, with scale 1, rotation 0, and no font size, position or colour |
| `DesignEditor.Apply` | src/components/DesignEditor.tsx:221 | the edit sets exactly its own key and leaves every other field of the object unchanged |
| `DesignEditor.ApplyIdempotent` | src/components/DesignEditor.tsx:221 | repeating an edit changes nothing more |
| `DesignEditor.ApplyCommutes` | src/components/DesignEditor.tsx:218-221 | edits of different keys give the same object in either order |
| `DesignEditor.ApplyOverwrites` | src/components/DesignEditor.tsx:218-221 | of two edits of the same key the later one decides |
| `DesignEditor.WithoutIndex` | src/components/DesignEditor.tsx:213 | filtering out index k leaves the elements before and after k in order, and leaves the list as it is when k is out of range |
| `DesignEditor.DeleteUndoesAdd` | src/components/DesignEditor.tsx:198-215 | deleting the object just appended (whose index is the old length) restores the list |
| `DesignEditor.ReplaceLast` | src/components/DesignEditor.tsx:82 | the list keeps its length, ends with the new element and keeps every earlier one; an empty list becomes the one element |
| `DesignEditor.ReplaceLastTwice` | src/components/DesignEditor.tsx:82-103 | replacing the last element twice keeps only the second replacement |
| `DesignEditor.Editor.constructor` | src/components/DesignEditor.tsx:129-130 | the editor starts with no objects, no selection, nothing dragged and the camera controls on |
| `DesignEditor.Editor.AddText` | src/components/DesignEditor.tsx:198-201 | appends exactly the default text object and selects the old length |
| `DesignEditor.Editor.AddImage` | src/components/DesignEditor.tsx:203-209 | appends exactly the default image object and selects the old length |
| `DesignEditor.Editor.DeleteSelected` | src/components/DesignEditor.tsx:211-216 | with no selection nothing changes; otherwise the selected index is filtered out, the length drops by one when it was in range, and the selection is cleared |
| `DesignEditor.Editor.UpdateSelected` | src/components/DesignEditor.tsx:218-223 | out of range or no selection changes nothing; otherwise only the selected object is edited, the length and selection stay |
| `DesignEditor.Editor.PointerDown` | src/components/DesignEditor.tsx:60-84 | with no objects or no hit nothing changes; otherwise only the last object gets the new coordinate, becomes dragged and selected, and the camera controls are switched off |
| `DesignEditor.Editor.PointerMove` | src/components/DesignEditor.tsx:86-105 | while dragging and on a hit the dragged object takes the coordinate and replaces the last object; otherwise nothing changes |
| `DesignEditor.Editor.PointerUp` | src/components/DesignEditor.tsx:107-112 | the drag ends and the controls are switched back on; objects and selection stay |
| `DesignEditor.ReleaseEndsDrag` | src/components/DesignEditor.tsx:86-112 | after the pointer is released a move changes neither objects nor selection |
| `HeroSlides.Next` | src/components/Hero.tsx:7-19 | from an index in range a tick stays in range: the last index wraps to 0 and any other goes up by one |
| `HeroSlides.TicksInRange` | src/components/Hero.tsx:14-19 | starting in range, the index stays in range after any number of ticks |
| `HeroSlides.TicksCount` | src/components/Hero.tsx:19 | n ticks from a start in range land on (start + n) mod 3 |
| `HeroSlides.FullCycle` | src/components/Hero.tsx:19 | after any multiple of three ticks the index is back where it started |
| `HeroSlides.Slider.constructor` | src/components/Hero.tsx:14 | the index starts at 0 |
| `HeroSlides.Slider.Tick` | src/components/Hero.tsx:17-21 | one tick moves the index as the callback does and keeps it in range |

## Left out

- Firestore, Razorpay and sign-in: the real `getDocs`, `updateDoc`, `addDoc` and `razorpay.orders.create` calls are abstract success or failure values, and the id `addDoc` assigns is an abstract fresh key.
- The `userId` query of `fetchOrders` belongs to the database; the model takes its result as given.
- Asynchrony: the order in which awaited calls and state updates interleave, the ten-second interval and its cleanup, the `loading` flag's rendering and the toast notices are not modelled. Each handler runs to completion in one step.
- Stale closures: the pointer handlers and `cancelOrder` read state captured at render time; the model reads the current state, which is the same whenever the component has re-rendered since the last change (for the pointer handlers: whenever the effect has re-run).
- Aliasing in the editor: `selectedRef.current` is mutated in place and shares its object with the list. The model holds values, so only the list that the handler then stores is captured, not the mutation of older lists.
- Orders.SortByNewest: the stability of the sort for orders with equal creation seconds is not proved. Firestore's nanoseconds field is also ignored, as the comparator ignores it.
- PaymentRoute.Post: the amount is a whole number of rupees, so fractional rupees and floating-point products are not modelled. A missing or non-numeric amount, and a currency that is not a string, are not modelled either.
- DesignEditor: raycasting, the pointer-to-device coordinate arithmetic, canvas drawing and texture loading are floating-point and WebGL work. Scale, rotation and coordinates are stored reals only.
- Cart.Subtotal: the source's prices are floating-point amounts in major units, shown with two decimals. The model's integer minor units are exact, so floating-point rounding in the cart subtotal is not modelled.
- Display formatting: `toFixed(2)`, date formatting, the shortened order id and capitalisation are not modelled.
- The cart store in `@/context/CartProvider`, behind `updateQuantity`, `removeFromCart` and `addToCart`, is outside this model. Only the requests the cart panel sends it are modelled.
- Any checkout step flow and the client-side payment popup are outside this model.
- Error logging: the `console.error` calls of the payment endpoint, of `fetchOrders` and of `cancelOrder` are output only and are not modelled; the model keeps only the resulting state or response.
