/** The order-placement action of the cart page: reject unauthenticated callers
    and empty carts, re-read every line's variant from the catalog, price each
    line from the live catalog, create the order and decrement stock in one
    all-or-nothing transaction, and clear the session cart only after it commits. */
module Checkout {
  import opened Basics
  import opened Store
  import opened SessionStore

  /** Why a placement was refused. The source's several storage error messages
      collapse into `CommitFailed`. */
  datatype PlacementError =
    | NotSignedIn
    | EmptyCart
    | VariantNotFound(variantId: VariantId)
    | InsufficientStock(variantId: VariantId, available: int)
    | CommitFailed

  /** The HTTP status each refusal is returned with. */
  function Status(e: PlacementError): (code: int)
    ensures code == 401 <==> e.NotSignedIn?
    ensures code == 500 <==> e.CommitFailed?
    ensures code in {400, 401, 500}
  {
    match e
    case NotSignedIn => 401
    case CommitFailed => 500
    case _ => 400
  }

  datatype Response = OrderPlaced(orderId: OrderId) | Rejected(error: PlacementError)

  /** What the action returns together with the database and session it leaves behind. */
  datatype Outcome = Outcome(response: Response, db: Db, session: Session)

  /** A cart line passes validation: its variant (with product) exists and its
      stock, as read before the order, covers the line's quantity on its own. */
  predicate LineAvailable(db: Db, line: CartLine) {
    var found := FindVariant(db, line.productVariantId);
    found.Some? && found.value.0.stock >= line.quantity
  }

  predicate CartAvailable(db: Db, cart: seq<CartLine>) {
    forall i :: 0 <= i < |cart| ==> LineAvailable(db, cart[i])
  }

  /** The order item a valid line becomes: same variant and quantity, priced from the catalog. */
  predicate PricedFrom(db: Db, line: CartLine, item: OrderItem) {
    var found := FindVariant(db, line.productVariantId);
    && found.Some?
    && item.variantId == line.productVariantId
    && item.quantity == line.quantity
    && item.priceAtPurchase == UnitPrice(found.value.0, found.value.1)
  }

  /** `error` is what validating `cart` front to back reports first: every earlier
      line passed and line `i` is the first that fails, for the reason given. */
  predicate FirstFailure(db: Db, cart: seq<CartLine>, error: PlacementError) {
    exists i :: 0 <= i < |cart| && CartAvailable(db, cart[..i]) && !LineAvailable(db, cart[i]) &&
      var found := FindVariant(db, cart[i].productVariantId);
      if found.None? then error == VariantNotFound(cart[i].productVariantId)
      else error == InsufficientStock(cart[i].productVariantId, found.value.0.stock)
  }

  /** The validation loop of the action, as a reference definition: the first
      failing line aborts; otherwise one priced item per line, in cart order. */
  function PriceLines(db: Db, cart: seq<CartLine>): (r: Result<seq<OrderItem>, PlacementError>)
    ensures r.Success? <==> CartAvailable(db, cart)
    ensures r.Success? ==>
      |r.value| == |cart| && forall i :: 0 <= i < |cart| ==> PricedFrom(db, cart[i], r.value[i])
    ensures r.Failure? ==> FirstFailure(db, cart, r.error)
    decreases |cart|
  {
    if cart == [] then Success([])
    else
      var line := cart[0];
      match FindVariant(db, line.productVariantId)
      case None => Failure(VariantNotFound(line.productVariantId))
      case Some(found) =>
        if found.0.stock < line.quantity then
          Failure(InsufficientStock(line.productVariantId, found.0.stock))
        else
          var rest := PriceLines(db, cart[1..]);
          assert forall i :: 1 <= i < |cart| ==> cart[i] == cart[1..][i - 1];
          match rest
          case Failure(e) =>
            assert FirstFailure(db, cart, e) by {
              var j :| 0 <= j < |cart[1..]| && CartAvailable(db, cart[1..][..j]) && !LineAvailable(db, cart[1..][j]) &&
                var f := FindVariant(db, cart[1..][j].productVariantId);
                if f.None? then e == VariantNotFound(cart[1..][j].productVariantId)
                else e == InsufficientStock(cart[1..][j].productVariantId, f.value.0.stock);
              assert cart[..j + 1] == [line] + cart[1..][..j];
            }
            Failure(e)
          case Success(items) =>
            Success([OrderItem(line.productVariantId, line.quantity, UnitPrice(found.0, found.1))] + items)
  }

  /** `totalAmount`: the sum of price times quantity over the items. */
  function Total(items: seq<OrderItem>): Cents
    decreases |items|
  {
    if items == [] then 0 else items[0].priceAtPurchase * items[0].quantity + Total(items[1..])
  }

  lemma {:induction false} TotalAppend(items: seq<OrderItem>, item: OrderItem)
    ensures Total(items + [item]) == Total(items) + item.priceAtPurchase * item.quantity
    decreases |items|
  {
    if items == [] {
      assert [] + [item] == [item];
    } else {
      assert (items + [item])[1..] == items[1..] + [item];
      TotalAppend(items[1..], item);
    }
  }

  /** The validation loop as the source writes it: accumulate the items and the
      grand total line by line, returning at the first failing line. */
  method ValidateCart(db: Db, cart: seq<CartLine>) returns (r: Result<(seq<OrderItem>, Cents), PlacementError>)
    ensures r.Success? <==> PriceLines(db, cart).Success?
    ensures r.Success? ==> r.value.0 == PriceLines(db, cart).value && r.value.1 == Total(r.value.0)
    ensures r.Failure? ==> r.error == PriceLines(db, cart).error
  {
    var grandTotal := 0;
    var items: seq<OrderItem> := [];
    var k := 0;
    while k < |cart|
      invariant 0 <= k <= |cart|
      invariant PriceLines(db, cart[..k]).Success? && items == PriceLines(db, cart[..k]).value
      invariant grandTotal == Total(items)
      invariant forall i :: 0 <= i < k ==> LineAvailable(db, cart[i])
    {
      assert cart[..k + 1] == cart[..k] + [cart[k]];
      PriceLinesSnoc(db, cart[..k], cart[k]);
      var line := cart[k];
      var found := FindVariant(db, line.productVariantId);
      if found.None? {
        FirstFailureAt(db, cart, k);
        return Failure(VariantNotFound(line.productVariantId));
      }
      var (variant, product) := found.value;
      if variant.stock < line.quantity {
        FirstFailureAt(db, cart, k);
        return Failure(InsufficientStock(line.productVariantId, variant.stock));
      }
      var price := UnitPrice(variant, product);
      TotalAppend(items, OrderItem(line.productVariantId, line.quantity, price));
      grandTotal := grandTotal + price * line.quantity;
      items := items + [OrderItem(line.productVariantId, line.quantity, price)];
      k := k + 1;
    }
    assert cart[..k] == cart;
    return Success((items, grandTotal));
  }

  /** Extending a cart that validates by one available line still validates,
      with one more item, priced from the catalog, at the end. */
  lemma PriceLinesSnoc(db: Db, prefix: seq<CartLine>, line: CartLine)
    requires PriceLines(db, prefix).Success?
    ensures LineAvailable(db, line) ==>
      && PriceLines(db, prefix + [line]).Success?
      && var found := FindVariant(db, line.productVariantId);
         PriceLines(db, prefix + [line]).value ==
           PriceLines(db, prefix).value + [OrderItem(line.productVariantId, line.quantity, UnitPrice(found.value.0, found.value.1))]
  {
  }

  /** When every line before `k` passes and line `k` fails, validation reports line `k`. */
  lemma FirstFailureAt(db: Db, cart: seq<CartLine>, k: int)
    requires 0 <= k < |cart|
    requires forall i :: 0 <= i < k ==> LineAvailable(db, cart[i])
    requires !LineAvailable(db, cart[k])
    ensures PriceLines(db, cart).Failure?
    ensures var found := FindVariant(db, cart[k].productVariantId);
      if found.None? then PriceLines(db, cart).error == VariantNotFound(cart[k].productVariantId)
      else PriceLines(db, cart).error == InsufficientStock(cart[k].productVariantId, found.value.0.stock)
  {
  }

  /** How many units of `id` a list of order items asks for in total. */
  function QuantityOf(items: seq<OrderItem>, id: VariantId): int
    decreases |items|
  {
    if items == [] then 0
    else (if items[0].variantId == id then items[0].quantity else 0) + QuantityOf(items[1..], id)
  }

  /** How many units of `id` a cart asks for in total, over all its lines. */
  function CartQuantityOf(cart: seq<CartLine>, id: VariantId): int
    decreases |cart|
  {
    if cart == [] then 0
    else (if cart[0].productVariantId == id then cart[0].quantity else 0) + CartQuantityOf(cart[1..], id)
  }

  /** Items that copy the cart's variant ids and quantities ask for the same totals. */
  lemma {:induction false} QuantityOfItemsMatchesCart(items: seq<OrderItem>, cart: seq<CartLine>, id: VariantId)
    requires |items| == |cart|
    requires forall i :: 0 <= i < |cart| ==>
      items[i].variantId == cart[i].productVariantId && items[i].quantity == cart[i].quantity
    ensures QuantityOf(items, id) == CartQuantityOf(cart, id)
    decreases |cart|
  {
    if cart != [] {
      QuantityOfItemsMatchesCart(items[1..], cart[1..], id);
    }
  }

  /** The transaction's decrement loop: one `update ... decrement` per item, in
      order. Updating a variant that does not exist throws, which aborts the
      whole transaction (None). */
  function ApplyDecrements(variants: map<VariantId, Variant>, items: seq<OrderItem>): Option<map<VariantId, Variant>>
    decreases |items|
  {
    if items == [] then Some(variants)
    else
      var id := items[0].variantId;
      if id !in variants then None
      else ApplyDecrements(variants[id := variants[id].(stock := variants[id].stock - items[0].quantity)], items[1..])
  }

  /** When every item names an existing variant, the decrements all apply, and
      each variant's stock drops by the total quantity ordered for it; nothing
      else about any variant changes. */
  lemma {:induction false} DecrementsEffect(variants: map<VariantId, Variant>, items: seq<OrderItem>)
    requires forall i :: 0 <= i < |items| ==> items[i].variantId in variants
    ensures ApplyDecrements(variants, items).Some?
    ensures ApplyDecrements(variants, items).value.Keys == variants.Keys
    ensures forall id :: id in variants ==>
      ApplyDecrements(variants, items).value[id] == variants[id].(stock := variants[id].stock - QuantityOf(items, id))
    decreases |items|
  {
    if items != [] {
      var id := items[0].variantId;
      var next := variants[id := variants[id].(stock := variants[id].stock - items[0].quantity)];
      assert forall i :: 0 <= i < |items[1..]| ==> items[1..][i].variantId == items[i + 1].variantId;
      DecrementsEffect(next, items[1..]);
    }
  }

  /** The transaction: create the order with its items, then decrement stock.
      A storage fault, or an order id already taken (a unique-key violation),
      rolls back everything, so the result is all of it or nothing. */
  function Commit(db: Db, caller: ClerkId, orderId: OrderId, items: seq<OrderItem>, total: Cents, storageFault: bool): Option<Db>
  {
    if storageFault || orderId in db.orders then None
    else
      match ApplyDecrements(db.variants, items)
      case None => None
      case Some(variants) =>
        Some(db.(orders := db.orders[orderId := Order(caller, total, PAID, items)], variants := variants))
  }

  /** The order-placement action. `caller` is the identity provider's user id
      (absent or empty when signed out); `orderId` is the id the database would
      assign to the new order; `storageFault` says the database rejects the
      transaction for reasons outside this model. */
  function PlaceOrder(db: Db, session: Session, caller: Option<ClerkId>, orderId: OrderId, storageFault: bool): (o: Outcome)
    // Refusals happen in this order and never mutate anything.
    ensures !Truthy(caller) ==> o == Outcome(Rejected(NotSignedIn), db, session)
    ensures Truthy(caller) && GetCart(session) == [] ==> o == Outcome(Rejected(EmptyCart), db, session)
    ensures o.response.Rejected? ==> o.db == db && o.session == session
    ensures o.response.Rejected? && Truthy(caller) && GetCart(session) != [] && !CartAvailable(db, GetCart(session)) ==>
      FirstFailure(db, GetCart(session), o.response.error)
    // Placement succeeds exactly when every step can.
    ensures o.response.OrderPlaced? <==>
      Truthy(caller) && GetCart(session) != [] && CartAvailable(db, GetCart(session)) &&
      !storageFault && orderId !in db.orders
    ensures o.response.OrderPlaced? ==> o.response.orderId == orderId && o.session == Unset(session, CartKey)
    // A valid cart whose transaction cannot commit is the 500 case, and only it is.
    ensures (Truthy(caller) && GetCart(session) != [] && CartAvailable(db, GetCart(session)) &&
             (storageFault || orderId in db.orders)) ==>
      o == Outcome(Rejected(CommitFailed), db, session)
    ensures o.response == Rejected(CommitFailed) ==>
      CartAvailable(db, GetCart(session)) && (storageFault || orderId in db.orders)
  {
    if !Truthy(caller) then Outcome(Rejected(NotSignedIn), db, session)
    else
      var cart := GetCart(session);
      if |cart| == 0 then Outcome(Rejected(EmptyCart), db, session)
      else
        match PriceLines(db, cart)
        case Failure(e) => Outcome(Rejected(e), db, session)
        case Success(items) =>
          DecrementsEffect(db.variants, items);
          match Commit(db, caller.value, orderId, items, Total(items), storageFault)
          case None => Outcome(Rejected(CommitFailed), db, session)
          case Some(db') => Outcome(OrderPlaced(orderId), db', Unset(session, CartKey))
  }

  /** What a successful placement writes: one order owned by the caller, PAID,
      with one item per cart line in cart order priced from the catalog, whose
      total is the sum of price times quantity; every variant's stock drops by
      the quantity the cart asks for it, and nothing else in the database changes. */
  lemma PlaceOrderSuccess(db: Db, session: Session, caller: Option<ClerkId>, orderId: OrderId, storageFault: bool)
    requires PlaceOrder(db, session, caller, orderId, storageFault).response.OrderPlaced?
    ensures var o := PlaceOrder(db, session, caller, orderId, storageFault);
      var cart := GetCart(session);
      && orderId !in db.orders
      && o.db.orders.Keys == db.orders.Keys + {orderId}
      && (forall id :: id in db.orders ==> o.db.orders[id] == db.orders[id])
      && var order := o.db.orders[orderId];
      && order.userId == caller.value
      && order.status == PAID
      && |order.items| == |cart|
      && (forall i :: 0 <= i < |cart| ==> PricedFrom(db, cart[i], order.items[i]))
      && order.totalAmount == Total(order.items)
      && o.db.variants.Keys == db.variants.Keys
      && (forall id :: id in db.variants ==>
            o.db.variants[id] == db.variants[id].(stock := db.variants[id].stock - CartQuantityOf(cart, id)))
      && o.db.products == db.products
      && o.db.users == db.users
      && o.db.approved == db.approved
      && GetCart(o.session) == []
  {
    var cart := GetCart(session);
    var items := PriceLines(db, cart).value;
    DecrementsEffect(db.variants, items);
    forall id | id in db.variants {
      QuantityOfItemsMatchesCart(items, cart, id);
    }
  }

  /** Each line is checked against the stock read before the order, so with
      distinct variants in the cart every ordered variant keeps stock >= 0. */
  lemma DistinctCartKeepsStockNonNegative(db: Db, session: Session, caller: Option<ClerkId>, orderId: OrderId, storageFault: bool)
    requires forall i, j :: 0 <= i < j < |GetCart(session)| ==>
      GetCart(session)[i].productVariantId != GetCart(session)[j].productVariantId
    requires forall id :: id in db.variants ==> db.variants[id].stock >= 0
    ensures var o := PlaceOrder(db, session, caller, orderId, storageFault);
      forall id :: id in o.db.variants ==> o.db.variants[id].stock >= 0
  {
    var o := PlaceOrder(db, session, caller, orderId, storageFault);
    if o.response.OrderPlaced? {
      PlaceOrderSuccess(db, session, caller, orderId, storageFault);
      var cart := GetCart(session);
      forall id | id in db.variants
        ensures o.db.variants[id].stock >= 0
      {
        DistinctDemand(cart, id);
        if k :| 0 <= k < |cart| && cart[k].productVariantId == id {
          assert LineAvailable(db, cart[k]);
        }
      }
    }
  }

  /** In a cart with distinct variants, the demand for `id` is the quantity of
      its one line, or 0 when no line names it. */
  lemma {:induction false} DistinctDemand(cart: seq<CartLine>, id: VariantId)
    requires forall i, j :: 0 <= i < j < |cart| ==> cart[i].productVariantId != cart[j].productVariantId
    ensures (forall k :: 0 <= k < |cart| ==> cart[k].productVariantId != id) ==> CartQuantityOf(cart, id) == 0
    ensures forall k :: 0 <= k < |cart| && cart[k].productVariantId == id ==> CartQuantityOf(cart, id) == cart[k].quantity
    decreases |cart|
  {
    if cart != [] {
      var tail := cart[1..];
      assert forall i :: 0 <= i < |tail| ==> tail[i] == cart[i + 1];
      DistinctDemand(tail, id);
    }
  }

  /** A catalog with one variant "v" holding one unit. */
  function OneUnitDb(): Db {
    Db(map["p" := Product("Pad", None, Some(1000))],
       map["v" := Variant("p", None, None, Some(1000), 1)],
       map[], map[], map[])
  }

  /** The same variant twice in the cart: each line alone fits the one unit in
      stock, both decrements apply, and stock ends at -1. */
  lemma RepeatedVariantOversells()
    ensures var session := map[CartKey := CartList([CartLine("v", 1), CartLine("v", 1)])];
      var o := PlaceOrder(OneUnitDb(), session, Some("user_1"), "order_1", false);
      o.response == OrderPlaced("order_1") && "v" in o.db.variants && o.db.variants["v"].stock == -1
  {
    var session := map[CartKey := CartList([CartLine("v", 1), CartLine("v", 1)])];
    var cart := GetCart(session);
    assert CartAvailable(OneUnitDb(), cart) by {
      assert LineAvailable(OneUnitDb(), cart[0]) && LineAvailable(OneUnitDb(), cart[1]);
    }
    PlaceOrderSuccess(OneUnitDb(), session, Some("user_1"), "order_1", false);
    assert CartQuantityOf(cart[1..], "v") == 1;
  }
}
