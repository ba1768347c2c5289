/** The cart page of the client: it shows the cart the backend returns, lets
    the user change a line's quantity, remove a line or place the order, and
    keeps an error message. Every request's outcome is an input (the backend's
    answer, or a failure), so each handler is one step of a state machine over
    the displayed cart, the loading flag, the error, the requests sent and the
    page navigated to. */
module CartPage {
  import opened Common
  import opened Models
  import opened Ledger

  /** The requests the page sends, in the order it sends them. */
  datatype Call = GetCart | UpdateCartItem(itemId: int, quantity: int) | RemoveFromCart(itemId: int) | CreateOrder

  /** What `getCart()` resolved to. */
  datatype Fetched = FetchOk(data: CartData) | FetchFailed

  const LoadFailed: string := "Failed to load cart. Please try again."
  const UpdateFailed: string := "Failed to update cart item"
  const RemoveFailed: string := "Failed to remove item from cart"
  const CartEmpty: string := "Your cart is empty!"
  const OrderFailed: string := "Failed to place order. Please try again."

  /** The page's state; `location` is where it navigated, if anywhere. */
  datatype Page = Page(cart: CartData, loading: bool, error: string, calls: seq<Call>, location: Option<string>)

  /** The first render: an empty cart, loading, no error. */
  function Initial(): (p: Page)
    ensures p.cart.items == [] && p.loading && p.error == "" && p.calls == [] && p.location.None?
  {
    Page(CartData([], 0), true, "", [], None)
  }

  /** `fetchCart`: ask for the cart; on success show it and clear the error,
      on failure keep the cart and set the error; stop loading either way. */
  function Fetch(p: Page, fetched: Fetched): (r: Page)
    ensures r.calls == p.calls + [GetCart] && !r.loading && r.location == p.location
    ensures fetched.FetchOk? ==> r.cart == fetched.data && r.error == ""
    ensures fetched.FetchFailed? ==> r.cart == p.cart && r.error == LoadFailed
  {
    var p := p.(loading := true, calls := p.calls + [GetCart]);
    match fetched
    case FetchOk(data) => p.(cart := data, error := "", loading := false)
    case FetchFailed => p.(error := LoadFailed, loading := false)
  }

  /** `handleRemoveItem`: delete the line; a success re-fetches the cart. */
  function Remove(p: Page, itemId: int, ok: bool, fetched: Fetched): (r: Page)
  {
    var p := p.(calls := p.calls + [RemoveFromCart(itemId)]);
    if ok then Fetch(p, fetched) else p.(error := RemoveFailed)
  }

  /** `handleUpdateQuantity`: a quantity below one removes the line instead. */
  function Update(p: Page, itemId: int, quantity: int, ok: bool, fetched: Fetched): (r: Page)
  {
    if quantity < 1 then Remove(p, itemId, ok, fetched)
    else
      var p := p.(calls := p.calls + [UpdateCartItem(itemId, quantity)]);
      if ok then Fetch(p, fetched) else p.(error := UpdateFailed)
  }

  /** What `createOrder()` resolved to: the order the backend created, or a failure. */
  datatype Placed = Created(order: Order) | PlaceFailed

  /** `handlePlaceOrder`: an empty cart is refused without a request; a created
      order moves to the success page; a failure sets the error. */
  function PlaceOrder(p: Page, placed: Placed): (r: Page)
  {
    if |p.cart.items| == 0 then p.(error := CartEmpty)
    else
      var p := p.(calls := p.calls + [CreateOrder]);
      if placed.Created? then p.(location := Some("/order-success")) else p.(error := OrderFailed)
  }

  /** The mount effect: a signed-out visitor is sent to the login page and no
      cart is requested; otherwise the cart is fetched. */
  function Mount(p: Page, authenticated: bool, fetched: Fetched): (r: Page)
  {
    if !authenticated then p.(location := Some("/login")) else Fetch(p, fetched)
  }

  /** The − button of line `i` asks for one less, the + button for one more. */
  function Decrease(p: Page, i: nat, ok: bool, fetched: Fetched): (r: Page)
    requires i < |p.cart.items|
  {
    Update(p, p.cart.items[i].id, p.cart.items[i].quantity - 1, ok, fetched)
  }

  function Increase(p: Page, i: nat, ok: bool, fetched: Fetched): (r: Page)
    requires i < |p.cart.items|
  {
    Update(p, p.cart.items[i].id, p.cart.items[i].quantity + 1, ok, fetched)
  }

  /** The request a quantity change sends: a delete below one, an update otherwise. */
  function QuantityRequest(itemId: int, quantity: int): Call {
    if quantity < 1 then RemoveFromCart(itemId) else UpdateCartItem(itemId, quantity)
  }

  /** A quantity below one never sends an update: the page sends a delete instead. */
  lemma BelowOneRemoves(p: Page, itemId: int, quantity: int, ok: bool, fetched: Fetched)
    requires quantity < 1
    ensures Update(p, itemId, quantity, ok, fetched) == Remove(p, itemId, ok, fetched)
    ensures forall q :: UpdateCartItem(itemId, q) !in Update(p, itemId, quantity, ok, fetched).calls[|p.calls|..]
  {
  }

  /** A successful update or delete is followed by exactly one cart request. */
  lemma SuccessRefetches(p: Page, itemId: int, quantity: int, fetched: Fetched)
    ensures var r := Update(p, itemId, quantity, true, fetched);
            r.calls == p.calls + [QuantityRequest(itemId, quantity), GetCart]
    ensures fetched.FetchOk? ==> Update(p, itemId, quantity, true, fetched).cart == fetched.data
  {
  }

  /** A failed update or delete sets the error and leaves the displayed cart,
      the loading flag and the location alone; no cart request follows. */
  lemma FailureKeepsCart(p: Page, itemId: int, quantity: int, fetched: Fetched)
    ensures var r := Update(p, itemId, quantity, false, fetched);
            && r.cart == p.cart && r.loading == p.loading && r.location == p.location
            && r.error == (if quantity < 1 then RemoveFailed else UpdateFailed)
            && r.calls == p.calls + [QuantityRequest(itemId, quantity)]
  {
  }

  /** Checkout on an empty cart sends nothing and says so. */
  lemma EmptyCartNoOrder(p: Page, placed: Placed)
    requires |p.cart.items| == 0
    ensures PlaceOrder(p, placed) == p.(error := CartEmpty)
    ensures CreateOrder !in PlaceOrder(p, placed).calls[|p.calls|..]
  {
  }

  /** A failed order sets the error, does not navigate and keeps the cart. */
  lemma FailedOrderStays(p: Page)
    requires |p.cart.items| > 0
    ensures var r := PlaceOrder(p, PlaceFailed);
            r.error == OrderFailed && r.location == p.location && r.cart == p.cart
            && r.calls == p.calls + [CreateOrder]
  {
  }

  /** A signed-out visitor is sent to the login page and the cart is never requested. */
  lemma SignedOutRedirects(fetched: Fetched)
    ensures var r := Mount(Initial(), false, fetched);
            r.location == Some("/login") && r.calls == [] && r.cart == Initial().cart
  {
  }

  /** The buttons of a line ask for exactly one less and one more of that line. */
  lemma ButtonsStepByOne(p: Page, i: nat, fetched: Fetched)
    requires i < |p.cart.items|
    ensures var line := p.cart.items[i];
            && Increase(p, i, true, fetched).calls[|p.calls|] == QuantityRequest(line.id, line.quantity + 1)
            && Decrease(p, i, true, fetched).calls[|p.calls|] == QuantityRequest(line.id, line.quantity - 1)
  {
  }

  /** When the cart comes from the backend's cart view, the displayed total is
      the sum of price times quantity over the displayed lines. */
  lemma FetchedTotalConsistent(p: Page, foods: seq<FoodItem>, cart: seq<CartItem>, user: int)
    requires forall c :: c in cart ==> HasFood(foods, c.food)
    ensures var r := Fetch(p, FetchOk(CartView(foods, cart, user)));
            r.cart.total == LinesValue(r.cart.items) && r.cart.total == CartTotal(foods, UserLines(cart, user))
  {
  }

  /** The page as a stateful component. */
  class CartScreen {
    var cart: CartData
    var loading: bool
    var error: string
    var calls: seq<Call>
    var location: Option<string>

    function State(): Page
      reads this
    {
      Page(cart, loading, error, calls, location)
    }

    constructor ()
      ensures State() == Initial()
    {
      cart, loading, error, calls, location := CartData([], 0), true, "", [], None;
    }

    method FetchCart(fetched: Fetched)
      modifies this
      ensures State() == Fetch(old(State()), fetched)
    {
      loading := true;
      calls := calls + [GetCart];
      match fetched {
        case FetchOk(data) =>
          cart := data;
          error := "";
        case FetchFailed =>
          error := LoadFailed;
      }
      loading := false;
    }

    method HandleRemoveItem(itemId: int, ok: bool, fetched: Fetched)
      modifies this
      ensures State() == Remove(old(State()), itemId, ok, fetched)
    {
      calls := calls + [RemoveFromCart(itemId)];
      if ok {
        FetchCart(fetched);
      } else {
        error := RemoveFailed;
      }
    }

    method HandleUpdateQuantity(itemId: int, quantity: int, ok: bool, fetched: Fetched)
      modifies this
      ensures State() == Update(old(State()), itemId, quantity, ok, fetched)
    {
      if quantity < 1 {
        HandleRemoveItem(itemId, ok, fetched);
        return;
      }
      calls := calls + [UpdateCartItem(itemId, quantity)];
      if ok {
        FetchCart(fetched);
      } else {
        error := UpdateFailed;
      }
    }

    method HandlePlaceOrder(placed: Placed)
      modifies this
      ensures State() == PlaceOrder(old(State()), placed)
    {
      if |cart.items| == 0 {
        error := CartEmpty;
        return;
      }
      calls := calls + [CreateOrder];
      if placed.Created? {
        location := Some("/order-success");
      } else {
        error := OrderFailed;
      }
    }

    method OnMount(authenticated: bool, fetched: Fetched)
      modifies this
      ensures State() == Mount(old(State()), authenticated, fetched)
    {
      if !authenticated {
        location := Some("/login");
        return;
      }
      FetchCart(fetched);
    }
  }
}
