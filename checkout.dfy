/**
 * The checkout service's order placement. Every collaborator (the id generator, the cart service, the
 * product service, and the connections to them) is an abstract `Backends` value that answers each
 * request with a value or an error. Each operation also returns the sequence of collaborator calls it
 * made, so that which calls happen, in what order, and which never happen can be stated.
 */
module Checkout {
  import opened Wrappers
  import Money
  import ProductCatalog

  datatype CartItem = CartItem(productId: string, quantity: int32)

  /** One priced line of an order. */
  datatype OrderItem = OrderItem(item: CartItem, cost: Money.Money)

  /** A postal address, passed through untouched. */
  datatype Address = Address(streetAddress: string, city: string, state: string, country: string, zipCode: int32)

  datatype User = User(address: Address)

  datatype PlaceOrderRequest = PlaceOrderRequest(userId: string, user: User)

  datatype OrderResult = OrderResult(
    orderId: string,
    shippingTrackingId: string,
    shippingCost: Option<Money.Money>,
    shippingAddress: Address,
    items: seq<OrderItem>)

  datatype PlaceOrderResponse = PlaceOrderResponse(order: OrderResult)

  /** The error a remote call or a dial reports. */
  datatype RpcError = RpcError(message: string)

  /** The errors of `main.go`, one constructor per `fmt.Errorf` site. */
  datatype CheckoutError =
    | CartConnectFailed(cause: RpcError)        // could not connect cart service
    | CartFetchFailed(cause: RpcError)          // failed to get user cart during checkout
    | CartEmptyFailed(cause: RpcError)          // failed to empty user cart during checkout
    | ProductConnectFailed(cause: RpcError)     // could not connect product service
    | ProductLookupFailed(productId: string)    // failed to get product #id (the RPC error is dropped)
    | CartFailure(inner: CheckoutError)         // cart failure: ...
    | PrepareFailure(inner: CheckoutError)      // failed to prepare order: ...

  /** The message of a gRPC status error returned by `PlaceOrder`. */
  datatype Reason = OrderIdFailed | Wrapped(err: CheckoutError)

  datatype Status = Status(code: Code, reason: Reason)

  /** The answers the collaborators give. A dial answers `None` when the connection is made. */
  datatype Backends = Backends(
    newUuid: Option<string>,
    cartDial: Option<RpcError>,
    getCart: string -> Result<seq<CartItem>, RpcError>,
    emptyCart: string -> Option<RpcError>,
    productDial: Option<RpcError>,
    getProduct: string -> Result<ProductCatalog.Product, RpcError>)

  /** A call made to a collaborator. */
  datatype Call =
    | NewUuid
    | ConnectCart
    | GetCart(userId: string)
    | EmptyCart(userId: string)
    | ConnectProduct
    | GetProduct(productId: string)

  /** `orderPrep`: the priced items and the cart they came from. */
  datatype OrderPrep = OrderPrep(orderItems: seq<OrderItem>, cartItems: seq<CartItem>)

  /** `getUserCart`: dial the cart service, then fetch the user's items. */
  function GetUserCart(b: Backends, userId: string): (res: (Result<seq<CartItem>, CheckoutError>, seq<Call>))
    ensures b.cartDial.Some? ==> res == (Err(CartConnectFailed(b.cartDial.value)), [ConnectCart])
    ensures b.cartDial.None? ==> res.1 == [ConnectCart, GetCart(userId)]
    ensures b.cartDial.None? && b.getCart(userId).Ok? ==> res.0 == Ok(b.getCart(userId).value)
    ensures b.cartDial.None? && b.getCart(userId).Err? ==> res.0 == Err(CartFetchFailed(b.getCart(userId).error))
  {
    if b.cartDial.Some? then (Err(CartConnectFailed(b.cartDial.value)), [ConnectCart])
    else
      match b.getCart(userId)
      case Err(e) => (Err(CartFetchFailed(e)), [ConnectCart, GetCart(userId)])
      case Ok(items) => (Ok(items), [ConnectCart, GetCart(userId)])
  }

  /** `emptyUserCart`: dial the cart service, then ask it to empty the user's cart. */
  function EmptyUserCart(b: Backends, userId: string): (res: (Option<CheckoutError>, seq<Call>))
    ensures b.cartDial.Some? ==> res == (Some(CartConnectFailed(b.cartDial.value)), [ConnectCart])
    ensures b.cartDial.None? ==> res.1 == [ConnectCart, EmptyCart(userId)]
    ensures b.cartDial.None? ==> (res.0.None? <==> b.emptyCart(userId).None?)
    ensures b.cartDial.None? && b.emptyCart(userId).Some? ==> res.0 == Some(CartEmptyFailed(b.emptyCart(userId).value))
  {
    if b.cartDial.Some? then (Some(CartConnectFailed(b.cartDial.value)), [ConnectCart])
    else
      match b.emptyCart(userId)
      case Some(e) => (Some(CartEmptyFailed(e)), [ConnectCart, EmptyCart(userId)])
      case None => (None, [ConnectCart, EmptyCart(userId)])
  }

  /** The product lookups for the given cart items, in order. */
  function Lookups(items: seq<CartItem>): seq<Call> {
    seq(|items|, i requires 0 <= i < |items| => GetProduct(items[i].productId))
  }

  /** The lookups for two runs of items are the lookups of the first run followed by those of the second. */
  lemma LookupsAppend(a: seq<CartItem>, b: seq<CartItem>)
    ensures Lookups(a + b) == Lookups(a) + Lookups(b)
  {
  }

  /** The position of the first item whose product lookup fails, or the number of items when none fails. */
  function FirstFailedLookup(items: seq<CartItem>, getProduct: string -> Result<ProductCatalog.Product, RpcError>): (k: nat)
    ensures k <= |items|
    ensures forall j :: 0 <= j < k ==> getProduct(items[j].productId).Ok?
    ensures k < |items| ==> getProduct(items[k].productId).Err?
  {
    if |items| == 0 then 0
    else if getProduct(items[0].productId).Err? then 0
    else 1 + FirstFailedLookup(items[1..], getProduct)
  }

  /**
   * What `prepOrderItems` does: after connecting, look the items up in order and stop at the first
   * failure; otherwise price each item at its product's unit price.
   */
  function PrepOrderItemsOutcome(b: Backends, items: seq<CartItem>): (res: (Result<seq<OrderItem>, CheckoutError>, seq<Call>))
    ensures 1 <= |res.1| <= |items| + 1 && res.1[0] == ConnectProduct
    ensures res.0.Ok? ==> |res.0.value| == |items| && |res.1| == |items| + 1
    ensures res.0.Err? ==> res.0.error.ProductConnectFailed? || res.0.error.ProductLookupFailed?
  {
    if b.productDial.Some? then (Err(ProductConnectFailed(b.productDial.value)), [ConnectProduct])
    else
      var k := FirstFailedLookup(items, b.getProduct);
      if k < |items| then
        (Err(ProductLookupFailed(items[k].productId)), [ConnectProduct] + Lookups(items[..k + 1]))
      else
        (Ok(seq(|items|, i requires 0 <= i < |items| =>
           OrderItem(items[i], b.getProduct(items[i].productId).value.priceUsd))),
         [ConnectProduct] + Lookups(items))
  }

  /**
   * Pricing succeeds exactly when the product service is reachable and every lookup succeeds; then
   * there is one order item per cart item, at the same position, costing the product's unit price.
   */
  lemma PricingSucceedsIff(b: Backends, items: seq<CartItem>)
    ensures var (r, calls) := PrepOrderItemsOutcome(b, items);
      (r.Ok? <==> b.productDial.None? && forall i :: 0 <= i < |items| ==> b.getProduct(items[i].productId).Ok?) &&
      (r.Ok? ==>
        |r.value| == |items| && calls == [ConnectProduct] + Lookups(items) &&
        forall i :: 0 <= i < |items| ==>
          r.value[i].item == items[i] && r.value[i].cost == b.getProduct(items[i].productId).value.priceUsd)
  {
  }

  /**
   * A failed lookup aborts pricing with an error naming the first failing product, whatever earlier
   * lookups returned; the lookups made are those up to and including it.
   */
  lemma PricingStopsAtFirstFailure(b: Backends, items: seq<CartItem>, k: nat)
    requires b.productDial.None? && k < |items|
    requires forall j :: 0 <= j < k ==> b.getProduct(items[j].productId).Ok?
    requires b.getProduct(items[k].productId).Err?
    ensures PrepOrderItemsOutcome(b, items) ==
      (Err(ProductLookupFailed(items[k].productId)), [ConnectProduct] + Lookups(items[..k + 1]))
  {
  }

  /** When the product service cannot be reached, no lookup is made and the answers are irrelevant. */
  lemma PricingUnreachable(b: Backends, items: seq<CartItem>, other: string -> Result<ProductCatalog.Product, RpcError>)
    requires b.productDial.Some?
    ensures PrepOrderItemsOutcome(b, items) == PrepOrderItemsOutcome(b.(getProduct := other), items)
    ensures PrepOrderItemsOutcome(b, items).1 == [ConnectProduct]
  {
  }

  /** Every call pricing makes is to the product service. */
  lemma PricingCallsOnlyCatalog(b: Backends, items: seq<CartItem>)
    ensures forall c :: c in PrepOrderItemsOutcome(b, items).1 ==> c.ConnectProduct? || c.GetProduct?
  {
  }

  /** `prepOrderItems`: allocate the result, connect, then fill it by index, one lookup per cart item. */
  method PrepOrderItems(b: Backends, items: seq<CartItem>) returns (r: Result<seq<OrderItem>, CheckoutError>, calls: seq<Call>)
    ensures (r, calls) == PrepOrderItemsOutcome(b, items)
  {
    var out := new OrderItem[|items|];
    calls := [ConnectProduct];
    if b.productDial.Some? {
      r := Err(ProductConnectFailed(b.productDial.value));
      return;
    }
    var i := 0;
    while i < |items|
      invariant 0 <= i <= |items|
      invariant calls == [ConnectProduct] + Lookups(items[..i])
      invariant forall j :: 0 <= j < i ==>
        b.getProduct(items[j].productId).Ok? &&
        out[j] == OrderItem(items[j], b.getProduct(items[j].productId).value.priceUsd)
    {
      var item := items[i];
      var product := b.getProduct(item.productId);
      assert items[..i + 1] == items[..i] + [item];
      LookupsAppend(items[..i], [item]);
      calls := calls + [GetProduct(item.productId)];
      assert calls == [ConnectProduct] + Lookups(items[..i + 1]);
      if product.Err? {
        PricingStopsAtFirstFailure(b, items, i);
        r := Err(ProductLookupFailed(item.productId));
        return;
      }
      out[i] := OrderItem(item, product.value.priceUsd);
      i := i + 1;
    }
    assert items[..i] == items;
    PricingSucceedsIff(b, items);
    r := Ok(out[..]);
    assert r == PrepOrderItemsOutcome(b, items).0 by {
      var priced := PrepOrderItemsOutcome(b, items).0.value;
      assert |priced| == |items| == out.Length;
      assert forall j :: 0 <= j < |items| ==> out[..][j] == priced[j];
      assert out[..] == priced;
      assert PrepOrderItemsOutcome(b, items).0 == Ok(priced);
    }
  }

  /**
   * `prepareOrderItemsFromCart`: fetch the cart, then price it. A cart failure consults no catalog;
   * on success both fields are set; on any error the zero `orderPrep` is returned.
   */
  method PrepareOrderItemsFromCart(b: Backends, userId: string, address: Address)
    returns (out: OrderPrep, err: Option<CheckoutError>, calls: seq<Call>)
    ensures var (cart, cartCalls) := GetUserCart(b, userId);
      cart.Err? ==> out == OrderPrep([], []) && err == Some(CartFailure(cart.error)) && calls == cartCalls
    ensures var (cart, cartCalls) := GetUserCart(b, userId);
      cart.Ok? ==>
        var (priced, pricingCalls) := PrepOrderItemsOutcome(b, cart.value);
        calls == cartCalls + pricingCalls &&
        (priced.Err? ==> out == OrderPrep([], []) && err == Some(PrepareFailure(priced.error))) &&
        (priced.Ok? ==> out == OrderPrep(priced.value, cart.value) && err == None)
  {
    out := OrderPrep([], []);
    var (cart, cartCalls) := GetUserCart(b, userId);
    calls := cartCalls;
    if cart.Err? {
      err := Some(CartFailure(cart.error));
      return;
    }
    var priced, pricingCalls := PrepOrderItems(b, cart.value);
    calls := calls + pricingCalls;
    if priced.Err? {
      err := Some(PrepareFailure(priced.error));
      return;
    }
    out := OrderPrep(priced.value, cart.value);
    err := None;
  }

  /**
   * `PlaceOrder`: generate an order id, prepare the items, and answer with an order result holding
   * the id, the items and the user's address. Every failure is an Internal status and no result. No
   * total is accumulated, nothing is charged or shipped, and the cart is never emptied.
   */
  method PlaceOrder(b: Backends, request: PlaceOrderRequest)
    returns (r: Result<PlaceOrderResponse, Status>, calls: seq<Call>)
    ensures b.newUuid.None? ==> r == Err(Status(Internal, OrderIdFailed)) && calls == [NewUuid]
    ensures b.newUuid.Some? ==>
      var (cart, cartCalls) := GetUserCart(b, request.userId);
      (cart.Err? ==>
        r == Err(Status(Internal, Wrapped(CartFailure(cart.error)))) &&
        calls == [NewUuid] + cartCalls) &&
      (cart.Ok? ==>
        var (priced, pricingCalls) := PrepOrderItemsOutcome(b, cart.value);
        calls == [NewUuid] + cartCalls + pricingCalls &&
        (priced.Err? ==> r == Err(Status(Internal, Wrapped(PrepareFailure(priced.error))))) &&
        (priced.Ok? ==> r == Ok(PlaceOrderResponse(
          OrderResult(b.newUuid.value, "", None, request.user.address, priced.value)))))
    ensures r.Err? ==> r.error.code == Internal
    ensures forall c :: c in calls ==> !c.EmptyCart?
  {
    calls := [NewUuid];
    if b.newUuid.None? {
      return Err(Status(Internal, OrderIdFailed)), calls;
    }
    var orderId := b.newUuid.value;
    var prep, err, prepCalls := PrepareOrderItemsFromCart(b, request.userId, request.user.address);
    calls := calls + prepCalls;
    if err.Some? {
      return Err(Status(Internal, Wrapped(err.value))), calls;
    }
    // `PlaceOrder` in Go declares a zero USD total and loops over the items with an empty body; nothing
    // observable comes of it.
    var orderResult := OrderResult(orderId, "", None, request.user.address, prep.orderItems);
    r := Ok(PlaceOrderResponse(orderResult));
  }

  /**
   * When the product collaborator is the product service over a fixed catalog, a successfully priced
   * item costs the price of the last catalog entry with its id, and pricing fails exactly when some
   * cart item's id is missing from the catalog.
   */
  lemma PricingFromCatalog(b: Backends, items: seq<CartItem>, catalog: seq<ProductCatalog.Product>)
    requires b.productDial.None?
    requires forall id :: b.getProduct(id) == FromCatalog(catalog, id)
    ensures var r := PrepOrderItemsOutcome(b, items).0;
      (r.Ok? <==> forall i :: 0 <= i < |items| ==> ProductCatalog.Lookup(catalog, items[i].productId).Ok?) &&
      (r.Ok? ==> forall i :: 0 <= i < |items| ==>
        exists k :: ProductCatalog.IsLastWithId(catalog, items[i].productId, k) && r.value[i].cost == catalog[k].priceUsd)
  {
  }

  /** The product service's `GetProduct` answer as the checkout service receives it. */
  function FromCatalog(catalog: seq<ProductCatalog.Product>, id: string): (r: Result<ProductCatalog.Product, RpcError>)
    ensures r.Ok? <==> ProductCatalog.Lookup(catalog, id).Ok?
    ensures r.Ok? ==> r.value.id == id && exists k :: ProductCatalog.IsLastWithId(catalog, id, k) && r.value == catalog[k]
    ensures r.Err? ==>
      ProductCatalog.Lookup(catalog, id) == Err(ProductCatalog.NoProductWithId(NotFound, id)) &&
      r.error == RpcError("no product with ID " + id)
  {
    match ProductCatalog.Lookup(catalog, id)
    case Ok(p) => Ok(p)
    case Err(_) => Err(RpcError("no product with ID " + id))
  }
}
