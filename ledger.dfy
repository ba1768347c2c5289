/** The REST views of the backend that read and write the tables: the cart
    (add, update, delete, view), order creation, the food listing with its
    image-URL rewriting, and the input checks of login. The database is the
    `Database` object; each view that writes is a method on it. */
module Ledger {
  import opened Common
  import opened Models

  // ---------------------------------------------------------------------
  // Lookups and sums over the tables

  /** `FoodItem.objects.get(id=foodId)`, as an index into the table. */
  function FoodIndex(foods: seq<FoodItem>, foodId: int): Option<nat> {
    FirstIndex(foods, (f: FoodItem) => f.id == foodId)
  }

  /** A food id that is in the table is found by the lookup. */
  lemma FoodIndexFinds(foods: seq<FoodItem>, foodId: int)
    requires HasFood(foods, foodId)
    ensures FoodIndex(foods, foodId).Some?
  {
    var k :| 0 <= k < |foods| && foods[k].id == foodId;
  }

  /** The cart line of `user` for `foodId`, the lookup of `get_or_create`. */
  function LineOf(cart: seq<CartItem>, user: int, foodId: int): Option<nat> {
    FirstIndex(cart, (c: CartItem) => c.user == user && c.food == foodId)
  }

  /** `CartItem.objects.get(id=itemId, user=user)`. */
  function OwnedLine(cart: seq<CartItem>, itemId: int, user: int): Option<nat> {
    FirstIndex(cart, (c: CartItem) => c.id == itemId && c.user == user)
  }

  /** The current price of a food (`item.food.price`). */
  function PriceOf(foods: seq<FoodItem>, foodId: int): int {
    match FoodIndex(foods, foodId)
    case Some(k) => foods[k].price
    case None => 0
  }

  function LineValue(foods: seq<FoodItem>, c: CartItem): int {
    PriceOf(foods, c.food) * c.quantity
  }

  /** `sum(item.food.price * item.quantity for item in lines)`. */
  function CartTotal(foods: seq<FoodItem>, lines: seq<CartItem>): int {
    if lines == [] then 0 else LineValue(foods, lines[0]) + CartTotal(foods, lines[1..])
  }

  /** `CartItem.objects.filter(user=user)`. */
  function UserLines(cart: seq<CartItem>, user: int): seq<CartItem> {
    Filter(cart, (c: CartItem) => c.user == user)
  }

  /** The lines that `filter(user=user).delete()` leaves behind. */
  function OtherUsersLines(cart: seq<CartItem>, user: int): seq<CartItem> {
    Filter(cart, (c: CartItem) => c.user != user)
  }

  lemma {:induction false} CartTotalAppend(foods: seq<FoodItem>, a: seq<CartItem>, b: seq<CartItem>)
    ensures CartTotal(foods, a + b) == CartTotal(foods, a) + CartTotal(foods, b)
  {
    if a == [] {
      assert a + b == b;
    } else {
      assert (a + b)[1..] == a[1..] + b;
      CartTotalAppend(foods, a[1..], b);
    }
  }

  /** Replacing one line by a line of the same user changes that user's total
      by the difference of the two lines' values and no other user's total. */
  lemma ReplaceLineTotal(foods: seq<FoodItem>, cart: seq<CartItem>, i: nat, c: CartItem, u: int)
    requires i < |cart| && c.user == cart[i].user
    ensures CartTotal(foods, UserLines(cart[i := c], u))
         == CartTotal(foods, UserLines(cart, u))
            + (if u == c.user then LineValue(foods, c) - LineValue(foods, cart[i]) else 0)
  {
    var p := (x: CartItem) => x.user == u;
    var a, b := cart[..i], cart[i + 1..];
    assert cart == a + [cart[i]] + b;
    assert cart[i := c] == a + [c] + b;
    FilterAppend(a + [cart[i]], b, p);
    FilterAppend(a, [cart[i]], p);
    FilterAppend(a + [c], b, p);
    FilterAppend(a, [c], p);
    CartTotalAppend(foods, Filter(a, p) + Filter([cart[i]], p), Filter(b, p));
    CartTotalAppend(foods, Filter(a, p), Filter([cart[i]], p));
    CartTotalAppend(foods, Filter(a, p) + Filter([c], p), Filter(b, p));
    CartTotalAppend(foods, Filter(a, p), Filter([c], p));
    assert Filter([c], p) == if u == c.user then [c] else [];
    assert Filter([cart[i]], p) == if u == c.user then [cart[i]] else [];
  }

  /** Appending a line adds its value to its owner's total only. */
  lemma AppendLineTotal(foods: seq<FoodItem>, cart: seq<CartItem>, c: CartItem, u: int)
    ensures CartTotal(foods, UserLines(cart + [c], u))
         == CartTotal(foods, UserLines(cart, u)) + (if u == c.user then LineValue(foods, c) else 0)
  {
    var p := (x: CartItem) => x.user == u;
    FilterAppend(cart, [c], p);
    CartTotalAppend(foods, Filter(cart, p), Filter([c], p));
    assert Filter([c], p) == if u == c.user then [c] else [];
  }

  /** Removing the line at `i` takes its value off its owner's total only. */
  lemma RemoveLineTotal(foods: seq<FoodItem>, cart: seq<CartItem>, i: nat, u: int)
    requires i < |cart|
    ensures CartTotal(foods, UserLines(cart[..i] + cart[i + 1..], u))
         == CartTotal(foods, UserLines(cart, u)) - (if u == cart[i].user then LineValue(foods, cart[i]) else 0)
  {
    var p := (x: CartItem) => x.user == u;
    var a, b := cart[..i], cart[i + 1..];
    assert cart == a + [cart[i]] + b;
    FilterAppend(a + [cart[i]], b, p);
    FilterAppend(a, [cart[i]], p);
    FilterAppend(a, b, p);
    CartTotalAppend(foods, Filter(a, p) + Filter([cart[i]], p), Filter(b, p));
    CartTotalAppend(foods, Filter(a, p), Filter([cart[i]], p));
    CartTotalAppend(foods, Filter(a, p), Filter(b, p));
    assert Filter([cart[i]], p) == if u == cart[i].user then [cart[i]] else [];
  }

  /** DELETE removes exactly the addressed line: every other row stays. */
  lemma RemoveExactlyThatLine(cart: seq<CartItem>, i: nat)
    requires i < |cart| && DistinctBy(cart, (c: CartItem) => c.id)
    ensures forall c :: c in cart[..i] + cart[i + 1..] ==> c in cart && c.id != cart[i].id
    ensures forall c :: c in cart && c.id != cart[i].id ==> c in cart[..i] + cart[i + 1..]
  {
    forall k | 0 <= k < |cart| && k != i ensures cart[k].id != cart[i].id {
      DistinctAt(cart, (c: CartItem) => c.id, k, i);
    }
    RemovedLineGone(cart, i);
    OtherLinesStay(cart, i);
  }

  lemma RemovedLineGone(cart: seq<CartItem>, i: nat)
    requires i < |cart| && forall k :: 0 <= k < |cart| && k != i ==> cart[k].id != cart[i].id
    ensures forall c :: c in cart[..i] + cart[i + 1..] ==> c in cart && c.id != cart[i].id
  {
    var r := cart[..i] + cart[i + 1..];
    forall c | c in r ensures c in cart && c.id != cart[i].id {
      var k :| 0 <= k < |r| && r[k] == c;
      var k' := if k < i then k else k + 1;
      assert r[k] == cart[k'];
    }
  }

  lemma OtherLinesStay(cart: seq<CartItem>, i: nat)
    requires i < |cart|
    ensures forall c :: c in cart && c.id != cart[i].id ==> c in cart[..i] + cart[i + 1..]
  {
    var r := cart[..i] + cart[i + 1..];
    forall c | c in cart && c.id != cart[i].id ensures c in r {
      var k :| 0 <= k < |cart| && cart[k] == c;
      var k' := if k < i then k else k - 1;
      assert r[k'] == c;
    }
  }

  lemma UserLinesInCart(cart: seq<CartItem>, user: int)
    ensures forall c :: c in UserLines(cart, user) ==> c in cart && c.user == user
  {
  }

  /** Deleting one user's lines leaves every other user's lines as they were. */
  lemma {:induction false} OtherUsersUntouched(cart: seq<CartItem>, user: int, u: int)
    requires u != user
    ensures UserLines(OtherUsersLines(cart, user), u) == UserLines(cart, u)
    ensures UserLines(OtherUsersLines(cart, user), user) == []
  {
    if cart != [] {
      OtherUsersUntouched(cart[1..], user, u);
      var keep := (c: CartItem) => c.user != user;
      var mine := (c: CartItem) => c.user == u;
      var own := (c: CartItem) => c.user == user;
      var rest := Filter(cart[1..], keep);
      var head := if keep(cart[0]) then [cart[0]] else [];
      assert Filter(cart, keep) == head + rest;
      FilterAppend(head, rest, mine);
      FilterAppend(head, rest, own);
    }
  }

  // ---------------------------------------------------------------------
  // GET /api/cart/ : the shape the client receives

  /** One serialized cart line: the nested food record and the quantity. */
  datatype CartLine = CartLine(id: int, food: FoodItem, quantity: int)

  /** The body of the cart response: `{items, total}`. */
  datatype CartData = CartData(items: seq<CartLine>, total: int)

  function LinesValue(items: seq<CartLine>): int {
    if items == [] then 0 else items[0].food.price * items[0].quantity + LinesValue(items[1..])
  }

  /** The consistency every cart response must satisfy: the total is the sum of
      price times quantity over the lines it lists. */
  predicate TotalConsistent(d: CartData) {
    d.total == LinesValue(d.items)
  }

  function SerializeLines(foods: seq<FoodItem>, lines: seq<CartItem>): (r: seq<CartLine>)
    requires forall c :: c in lines ==> HasFood(foods, c.food)
    ensures |r| == |lines|
    ensures forall k :: 0 <= k < |lines| ==>
              r[k].id == lines[k].id && r[k].quantity == lines[k].quantity
              && r[k].food.id == lines[k].food && r[k].food.price == PriceOf(foods, lines[k].food)
    ensures forall k :: 0 <= k < |lines| ==>
              FoodIndex(foods, lines[k].food).Some? && r[k].food == foods[FoodIndex(foods, lines[k].food).value]
    ensures LinesValue(r) == CartTotal(foods, lines)
  {
    if lines == [] then []
    else
      var c := lines[0];
      FoodIndexFinds(foods, c.food);
      var f := foods[FoodIndex(foods, c.food).value];
      [CartLine(c.id, f, c.quantity)] + SerializeLines(foods, lines[1..])
  }

  /** cart_view: the requesting user's lines and their total. */
  function CartView(foods: seq<FoodItem>, cart: seq<CartItem>, user: int): (r: CartData)
    requires forall c :: c in cart ==> HasFood(foods, c.food)
    ensures TotalConsistent(r)
    ensures r.total == CartTotal(foods, UserLines(cart, user))
    ensures r.items == SerializeLines(foods, UserLines(cart, user))
    ensures forall k :: 0 <= k < |r.items| ==> exists c :: c in cart && c.user == user && c.id == r.items[k].id
  {
    var lines := UserLines(cart, user);
    var items := SerializeLines(foods, lines);
    assert forall k :: 0 <= k < |items| ==> lines[k] in cart && lines[k].user == user;
    CartData(items, CartTotal(foods, lines))
  }

  /** Lines of other users have no effect on what a user's cart view shows. */
  lemma CartViewIgnoresOtherUsers(foods: seq<FoodItem>, cart: seq<CartItem>, others: seq<CartItem>, user: int)
    requires forall c :: c in cart + others ==> HasFood(foods, c.food)
    requires forall c :: c in others ==> c.user != user
    ensures CartView(foods, cart + others, user) == CartView(foods, cart, user)
  {
    var p := (c: CartItem) => c.user == user;
    FilterAppend(cart, others, p);
    assert forall i :: 0 <= i < |others| ==> others[i] in others;
    FilterNone(others, p);
    assert Filter(cart, p) + [] == Filter(cart, p);
    assert UserLines(cart + others, user) == UserLines(cart, user);
  }

  // ---------------------------------------------------------------------
  // POST /api/order/create/ : the order lines a checkout writes

  /** One OrderItem per cart line, in the lines' order, each copying the food,
      the quantity and the food's price at this moment, with consecutive ids. */
  function OrderLines(foods: seq<FoodItem>, lines: seq<CartItem>, orderId: int, firstId: int): (r: seq<OrderItem>)
    ensures |r| == |lines|
    ensures forall k :: 0 <= k < |lines| ==>
              r[k] == OrderItem(firstId + k, orderId, lines[k].food, lines[k].quantity, PriceOf(foods, lines[k].food))
  {
    if lines == [] then []
    else
      var n := |lines| - 1;
      OrderLines(foods, lines[..n], orderId, firstId)
        + [OrderItem(firstId + n, orderId, lines[n].food, lines[n].quantity, PriceOf(foods, lines[n].food))]
  }

  /** Writing one more cart line extends the order lines by exactly one row. */
  lemma OrderLinesSnoc(foods: seq<FoodItem>, lines: seq<CartItem>, k: nat, orderId: int, firstId: int)
    requires k < |lines|
    ensures OrderLines(foods, lines[..k + 1], orderId, firstId)
         == OrderLines(foods, lines[..k], orderId, firstId)
            + [OrderItem(firstId + k, orderId, lines[k].food, lines[k].quantity, PriceOf(foods, lines[k].food))]
  {
    assert lines[..k + 1][..k] == lines[..k];
  }

  /** The loop of create_order that issues one `OrderItem.objects.create` per
      cart line, handing out consecutive ids from `firstId`. */
  method OrderRows(foods: seq<FoodItem>, lines: seq<CartItem>, orderId: int, firstId: int) returns (written: seq<OrderItem>)
    ensures written == OrderLines(foods, lines, orderId, firstId)
  {
    written := [];
    var k := 0;
    while k < |lines|
      invariant 0 <= k <= |lines|
      invariant written == OrderLines(foods, lines[..k], orderId, firstId)
    {
      var c := lines[k];
      written := written + [OrderItem(firstId + k, orderId, c.food, c.quantity, PriceOf(foods, c.food))];
      assert written == OrderLines(foods, lines[..k + 1], orderId, firstId) by {
        OrderLinesSnoc(foods, lines, k, orderId, firstId);
      }
      k := k + 1;
    }
    assert lines[..k] == lines;
  }

  /** Writing the order lines of some of the cart's lines, for an order that
      exists, with ids above every existing one, keeps the order tables valid. */
  lemma OrderLinesKeepValid(foods: seq<FoodItem>, orders: seq<Order>, items: seq<OrderItem>,
                            lines: seq<CartItem>, orderId: int, firstId: int)
    requires FoodsValid(foods) && OrderItemsValid(foods, orders, items)
    requires forall c :: c in lines ==> c.quantity >= 0 && HasFood(foods, c.food)
    requires HasOrder(orders, orderId)
    requires forall x :: x in items ==> x.id < firstId
    ensures OrderItemsValid(foods, orders, items + OrderLines(foods, lines, orderId, firstId))
    ensures forall x :: x in items + OrderLines(foods, lines, orderId, firstId) ==> x.id < firstId + |lines|
  {
    var rows := OrderLines(foods, lines, orderId, firstId);
    var all := items + rows;
    forall k | 0 <= k < |rows|
      ensures rows[k].id == firstId + k && rows[k].quantity >= 0 && FitsDecimal(rows[k].price)
              && HasOrder(orders, rows[k].order) && HasFood(foods, rows[k].food)
    {
      assert lines[k] in lines;
      FoodIndexFinds(foods, lines[k].food);
      assert foods[FoodIndex(foods, lines[k].food).value] in foods;
    }
    DistinctByPairwise(items, (x: OrderItem) => x.id);
    forall i, j | 0 <= i < j < |all| ensures all[i].id != all[j].id {
      if j < |items| {
        assert all[i] == items[i] && all[j] == items[j];
      } else if i < |items| {
        assert all[i] == items[i] && items[i] in items && all[j] == rows[j - |items|];
      } else {
        assert all[i] == rows[i - |items|] && all[j] == rows[j - |items|];
      }
    }
    DistinctByPairwise(all, (x: OrderItem) => x.id);
    forall x | x in all
      ensures x.quantity >= 0 && FitsDecimal(x.price) && HasOrder(orders, x.order) && HasFood(foods, x.food)
      ensures x.id < firstId + |lines|
    {
      var m :| 0 <= m < |all| && all[m] == x;
      if m < |items| {
        assert x == items[m] && x in items;
      } else {
        assert x == rows[m - |items|];
      }
    }
  }

  /** The value of order lines computed from their own stored prices. */
  function ItemsTotal(items: seq<OrderItem>): int {
    if items == [] then 0 else items[0].price * items[0].quantity + ItemsTotal(items[1..])
  }

  /** The order's total equals the sum over its order lines of their own stored
      price times quantity: once written, the order does not depend on the
      catalogue's later prices. */
  lemma {:induction false} OrderLinesTotal(foods: seq<FoodItem>, lines: seq<CartItem>, orderId: int, firstId: int)
    ensures ItemsTotal(OrderLines(foods, lines, orderId, firstId)) == CartTotal(foods, lines)
  {
    if lines != [] {
      var r := OrderLines(foods, lines, orderId, firstId);
      OrderLinesTotal(foods, lines[1..], orderId, firstId + 1);
      var r' := OrderLines(foods, lines[1..], orderId, firstId + 1);
      assert r[0].price * r[0].quantity == LineValue(foods, lines[0]);
      assert r[1..] == r' by {
        forall k | 0 <= k < |r'| ensures r[1..][k] == r'[k] {
          assert lines[1..][k] == lines[k + 1];
        }
      }
    }
  }

  // ---------------------------------------------------------------------
  // GET /api/foods/ : absolute image URLs

  function Scheme(secure: bool): string {
    if secure then "https" else "http"
  }

  /** The image rewrite of food_list: a present path that does not start with
      "http" is prefixed with the request's scheme and host. */
  function AbsoluteImage(image: Option<string>, secure: bool, host: string): Option<string> {
    if Present(image) && !StartsWith(image.value, "http") then
      Some(Scheme(secure) + "://" + host + image.value)
    else image
  }

  /** An absent or empty image is left alone; a present one comes out as a URL
      that starts with "http" and ends with the stored path; a path that is
      already a URL is kept as it is. */
  lemma AbsoluteImageShape(image: Option<string>, secure: bool, host: string)
    ensures !Present(image) ==> AbsoluteImage(image, secure, host) == image
    ensures Present(image) ==>
              var r := AbsoluteImage(image, secure, host);
              r.Some? && StartsWith(r.value, "http") && EndsWith(r.value, image.value)
    ensures Present(image) && StartsWith(image.value, "http") ==> AbsoluteImage(image, secure, host) == image
  {
    if Present(image) && !StartsWith(image.value, "http") {
      var url := Scheme(secure) + "://" + host + image.value;
      assert url[..4] == "http";
      assert url[|url| - |image.value|..] == image.value;
    }
  }

  /** Rewriting an already rewritten URL changes nothing. */
  lemma AbsoluteImageIdempotent(image: Option<string>, secure: bool, host: string)
    ensures AbsoluteImage(AbsoluteImage(image, secure, host), secure, host) == AbsoluteImage(image, secure, host)
  {
    AbsoluteImageShape(image, secure, host);
    AbsoluteImageShape(AbsoluteImage(image, secure, host), secure, host);
  }

  /** `FoodItem.objects.all()` under `ordering = ['-created_at']`. */
  function FoodListing(foods: seq<FoodItem>): seq<FoodItem> {
    NewestFirst(foods, (f: FoodItem) => f.createdAt)
  }

  /** A food strictly newer than every other food heads the listing. */
  lemma FoodListingHead(foods: seq<FoodItem>, x: FoodItem)
    requires x in foods
    requires forall y :: y in foods && y != x ==> y.createdAt < x.createdAt
    ensures |FoodListing(foods)| > 0 && FoodListing(foods)[0] == x
  {
    NewestFirstHead(foods, (f: FoodItem) => f.createdAt, x);
  }

  // ---------------------------------------------------------------------
  // POST /api/login/

  /** A user that `authenticate` accepted, with the key of its auth token. */
  datatype Account = Account(id: int, username: string, token: string)

  datatype LoginReply = LoginOk(token: string, userId: int, username: string) | LoginRefused(status: int, error: string)

  /** login_user; `authenticated` is what `authenticate(username, password)`
      returns, which is consulted only when both fields are present. */
  function LoginUser(username: Option<string>, password: Option<string>, authenticated: Option<Account>): (r: LoginReply)
    ensures r.LoginRefused? && r.status == 400 <==> !(Present(username) && Present(password))
    ensures r.LoginRefused? && r.status == 401 <==> Present(username) && Present(password) && authenticated.None?
    ensures r.LoginOk? <==> Present(username) && Present(password) && authenticated.Some?
    ensures r.LoginOk? ==> r.token == authenticated.value.token && r.userId == authenticated.value.id
                           && r.username == authenticated.value.username
  {
    if Present(username) && Present(password) then
      match authenticated
      case Some(a) => LoginOk(a.token, a.id, a.username)
      case None => LoginRefused(401, "Invalid username or password")
    else LoginRefused(400, "Username and password required")
  }

  // ---------------------------------------------------------------------
  // The database

  /** The tables satisfy the schema and every primary key lies below the next
      value its auto-increment counter will hand out. */
  ghost predicate DatabaseValid(foods: seq<FoodItem>, cart: seq<CartItem>, orders: seq<Order>, items: seq<OrderItem>,
                                nextFoodId: int, nextCartId: int, nextOrderId: int, nextOrderItemId: int)
  {
    && TablesValid(Tables(foods, cart, orders, items))
    && (forall f :: f in foods ==> f.id < nextFoodId)
    && (forall c :: c in cart ==> c.id < nextCartId)
    && (forall o :: o in orders ==> o.id < nextOrderId)
    && (forall x :: x in items ==> x.id < nextOrderItemId)
  }

  /** Setting the quantity of a line to a non-negative value keeps the database valid. */
  lemma SetQuantityKeepsValid(foods: seq<FoodItem>, cart: seq<CartItem>, orders: seq<Order>, items: seq<OrderItem>,
                              nextFoodId: int, nextCartId: int, nextOrderId: int, nextOrderItemId: int, i: nat, q: int)
    requires DatabaseValid(foods, cart, orders, items, nextFoodId, nextCartId, nextOrderId, nextOrderItemId)
    requires i < |cart| && q >= 0
    ensures DatabaseValid(foods, cart[i := cart[i].(quantity := q)], orders, items,
                          nextFoodId, nextCartId, nextOrderId, nextOrderItemId)
  {
    SetQuantityKeepsCartValid(foods, cart, i, q);
    var r := cart[i := cart[i].(quantity := q)];
    forall c | c in r ensures c.id < nextCartId {
      var k :| 0 <= k < |r| && r[k] == c;
      assert cart[k] in cart;
    }
  }

  /** A new line for a (user, food) pair the cart does not hold yet, with the
      next id and a non-negative quantity, keeps the database valid. */
  lemma AddLineKeepsValid(foods: seq<FoodItem>, cart: seq<CartItem>, orders: seq<Order>, items: seq<OrderItem>,
                          nextFoodId: int, nextCartId: int, nextOrderId: int, nextOrderItemId: int, c: CartItem)
    requires DatabaseValid(foods, cart, orders, items, nextFoodId, nextCartId, nextOrderId, nextOrderItemId)
    requires c.id == nextCartId && c.quantity >= 0 && HasFood(foods, c.food)
    requires LineOf(cart, c.user, c.food).None?
    ensures DatabaseValid(foods, cart + [c], orders, items, nextFoodId, nextCartId + 1, nextOrderId, nextOrderItemId)
  {
    forall j | 0 <= j < |cart| ensures cart[j].id != c.id && (cart[j].user, cart[j].food) != (c.user, c.food) {
      assert cart[j] in cart;
    }
    AppendKeepsCartValid(foods, cart, c);
    var r := cart + [c];
    forall x | x in r ensures x.id < nextCartId + 1 {
      var k :| 0 <= k < |r| && r[k] == x;
      if k < |cart| {
        assert cart[k] in cart;
      }
    }
  }

  /** Deleting a line keeps the database valid. */
  lemma RemoveLineKeepsValid(foods: seq<FoodItem>, cart: seq<CartItem>, orders: seq<Order>, items: seq<OrderItem>,
                             nextFoodId: int, nextCartId: int, nextOrderId: int, nextOrderItemId: int, i: nat)
    requires DatabaseValid(foods, cart, orders, items, nextFoodId, nextCartId, nextOrderId, nextOrderItemId)
    requires i < |cart|
    ensures DatabaseValid(foods, cart[..i] + cart[i + 1..], orders, items, nextFoodId, nextCartId, nextOrderId, nextOrderItemId)
  {
    RemoveKeepsCartValid(foods, cart, i);
    var r := cart[..i] + cart[i + 1..];
    forall x | x in r ensures x.id < nextCartId {
      var k :| 0 <= k < |r| && r[k] == x;
      if k < i {
        assert cart[k] in cart;
      } else {
        assert r[k] == cart[k + 1] && cart[k + 1] in cart;
      }
    }
  }

  /** A new food row with the next id and a price that fits keeps the database valid. */
  lemma AddFoodKeepsValid(foods: seq<FoodItem>, cart: seq<CartItem>, orders: seq<Order>, items: seq<OrderItem>,
                          nextFoodId: int, nextCartId: int, nextOrderId: int, nextOrderItemId: int, f: FoodItem)
    requires DatabaseValid(foods, cart, orders, items, nextFoodId, nextCartId, nextOrderId, nextOrderItemId)
    requires f.id == nextFoodId && FitsDecimal(f.price)
    ensures DatabaseValid(foods + [f], cart, orders, items, nextFoodId + 1, nextCartId, nextOrderId, nextOrderItemId)
  {
    forall j | 0 <= j < |foods| ensures foods[j].id != f.id {
      assert foods[j] in foods;
    }
    AppendFoodKeepsTablesValid(Tables(foods, cart, orders, items), f);
    var r := foods + [f];
    forall x | x in r ensures x.id < nextFoodId + 1 {
      var k :| 0 <= k < |r| && r[k] == x;
      if k < |foods| {
        assert foods[k] in foods;
      }
    }
  }

  /** Placing an order (the order row, one order line per cart line of the
      user, the user's cart emptied) keeps the database valid. */
  lemma PlaceOrderKeepsValid(foods: seq<FoodItem>, cart: seq<CartItem>, orders: seq<Order>, items: seq<OrderItem>,
                             nextFoodId: int, nextCartId: int, nextOrderId: int, nextOrderItemId: int,
                             user: int, total: int, now: int,
                             cart': seq<CartItem>, orders': seq<Order>, items': seq<OrderItem>, nextOrderId': int, nextOrderItemId': int)
    requires DatabaseValid(foods, cart, orders, items, nextFoodId, nextCartId, nextOrderId, nextOrderItemId)
    requires FitsDecimal(total)
    requires cart' == OtherUsersLines(cart, user)
    requires orders' == orders + [Order(nextOrderId, user, total, now)] && nextOrderId' == nextOrderId + 1
    requires items' == items + OrderLines(foods, UserLines(cart, user), nextOrderId, nextOrderItemId)
    requires nextOrderItemId' == nextOrderItemId + |UserLines(cart, user)|
    ensures DatabaseValid(foods, cart', orders', items', nextFoodId, nextCartId, nextOrderId', nextOrderItemId')
  {
    var lines := UserLines(cart, user);
    var o := Order(nextOrderId, user, total, now);
    assert forall j :: 0 <= j < |orders| ==> orders[j] in orders;
    AppendOrderKeepsValid(foods, orders, items, o);
    UserLinesInCart(cart, user);
    OrderLinesKeepValid(foods, orders + [o], items, lines, o.id, nextOrderItemId);
    FilterKeepsCartValid(foods, cart, (c: CartItem) => c.user != user);
    var rest := OtherUsersLines(cart, user);
    assert forall c :: c in rest ==> c in cart;
  }

  function RequestedQuantity(quantity: Option<int>): int {
    if quantity.Some? then quantity.value else DefaultQuantity
  }

  datatype UpdateRequest = Put(quantity: Option<int>) | Delete

  class Database {
    var foods: seq<FoodItem>
    var cart: seq<CartItem>
    var orders: seq<Order>
    var orderItems: seq<OrderItem>
    // The next value of each table's auto-increment primary key.
    var nextFoodId: int
    var nextCartId: int
    var nextOrderId: int
    var nextOrderItemId: int

    ghost predicate Valid()
      reads this
    {
      DatabaseValid(foods, cart, orders, orderItems, nextFoodId, nextCartId, nextOrderId, nextOrderItemId)
    }

    constructor ()
      ensures Valid()
      ensures foods == [] && cart == [] && orders == [] && orderItems == []
    {
      foods, cart, orders, orderItems := [], [], [], [];
      nextFoodId, nextCartId, nextOrderId, nextOrderItemId := 1, 1, 1, 1;
    }

    /** POST /api/cart/add/. `foodId` and `quantity` are what the request
        carried: an absent food id finds no food, an absent quantity means 1.
        Nothing checks the quantity's sign, so a write that would store a
        negative quantity is refused by the column's check and answers 500. */
    method CartAdd(user: int, foodId: Option<int>, quantity: Option<int>, now: int) returns (status: int, line: Option<CartItem>)
      requires Valid()
      modifies this
      ensures Valid()
      ensures foods == old(foods) && orders == old(orders) && orderItems == old(orderItems)
      ensures nextFoodId == old(nextFoodId) && nextOrderId == old(nextOrderId) && nextOrderItemId == old(nextOrderItemId)
      ensures foodId.None? || FoodIndex(foods, foodId.value).None? ==>
                status == 404 && line.None? && cart == old(cart) && nextCartId == old(nextCartId)
      ensures foodId.Some? && FoodIndex(foods, foodId.value).Some? && LineOf(old(cart), user, foodId.value).Some? ==>
                var i := LineOf(old(cart), user, foodId.value).value;
                var merged := old(cart)[i].(quantity := old(cart)[i].quantity + RequestedQuantity(quantity));
                nextCartId == old(nextCartId)
                && if merged.quantity >= 0 then status == 200 && line == Some(merged) && cart == old(cart)[i := merged]
                   else status == 500 && line.None? && cart == old(cart)
      ensures foodId.Some? && FoodIndex(foods, foodId.value).Some? && LineOf(old(cart), user, foodId.value).None? ==>
                var created := CartItem(old(nextCartId), user, foodId.value, RequestedQuantity(quantity), now);
                if created.quantity >= 0 then
                  status == 201 && line == Some(created) && cart == old(cart) + [created] && nextCartId == old(nextCartId) + 1
                else status == 500 && line.None? && cart == old(cart) && nextCartId == old(nextCartId)
      ensures status == 201 <==> |cart| == |old(cart)| + 1
    {
      var q := RequestedQuantity(quantity);
      if foodId.None? || FoodIndex(foods, foodId.value).None? {
        return 404, None;
      }
      var food := foodId.value;
      var k := FoodIndex(foods, food).value;
      assert foods[k] in foods;
      match LineOf(cart, user, food)
      case Some(i) =>
        var merged := cart[i].(quantity := cart[i].quantity + q);
        if merged.quantity < 0 {
          return 500, None;
        }
        SetQuantityKeepsValid(foods, cart, orders, orderItems, nextFoodId, nextCartId, nextOrderId, nextOrderItemId,
                              i, merged.quantity);
        cart := cart[i := merged];
        status, line := 200, Some(merged);
      case None =>
        var created := CartItem(nextCartId, user, food, q, now);
        if q < 0 {
          return 500, None;
        }
        AddLineKeepsValid(foods, cart, orders, orderItems, nextFoodId, nextCartId, nextOrderId, nextOrderItemId, created);
        cart := cart + [created];
        nextCartId := nextCartId + 1;
        status, line := 201, Some(created);
    }

    /** PUT and DELETE on /api/cart/update/{itemId}/, scoped to the requesting user. */
    method CartUpdate(user: int, itemId: int, request: UpdateRequest) returns (status: int)
      requires Valid()
      modifies this
      ensures Valid()
      ensures foods == old(foods) && orders == old(orders) && orderItems == old(orderItems)
      ensures nextFoodId == old(nextFoodId) && nextCartId == old(nextCartId)
      ensures nextOrderId == old(nextOrderId) && nextOrderItemId == old(nextOrderItemId)
      ensures OwnedLine(old(cart), itemId, user).None? ==> status == 404 && cart == old(cart)
      ensures OwnedLine(old(cart), itemId, user).Some? && request.Put? ==>
                var i := OwnedLine(old(cart), itemId, user).value;
                if ValidNewQuantity(request.quantity) then
                  status == 200 && cart == old(cart)[i := old(cart)[i].(quantity := request.quantity.value)]
                else status == 400 && cart == old(cart)
      ensures OwnedLine(old(cart), itemId, user).Some? && request.Delete? ==>
                var i := OwnedLine(old(cart), itemId, user).value;
                status == 204 && cart == old(cart)[..i] + old(cart)[i + 1..]
    {
      match OwnedLine(cart, itemId, user)
      case None =>
        return 404;
      case Some(i) =>
        match request
        case Put(q) =>
          if ValidNewQuantity(q) {
            SetQuantityKeepsValid(foods, cart, orders, orderItems, nextFoodId, nextCartId, nextOrderId, nextOrderItemId,
                                  i, q.value);
            cart := cart[i := cart[i].(quantity := q.value)];
            return 200;
          }
          return 400;
        case Delete =>
          RemoveLineKeepsValid(foods, cart, orders, orderItems, nextFoodId, nextCartId, nextOrderId, nextOrderItemId, i);
          cart := cart[..i] + cart[i + 1..];
          return 204;
    }

    /** POST /api/order/create/: refuse an empty cart; otherwise write one order
        for the total, one order line per cart line, and clear this user's cart.
        A total that does not fit the column is a failed write (500). */
    method CreateOrder(user: int, now: int) returns (status: int, order: Option<Order>)
      requires Valid()
      modifies this
      ensures Valid()
      ensures foods == old(foods) && nextFoodId == old(nextFoodId) && nextCartId == old(nextCartId)
      ensures var lines := UserLines(old(cart), user);
              var total := CartTotal(foods, lines);
              if lines == [] || !FitsDecimal(total) then
                && status == (if lines == [] then 400 else 500) && order.None?
                && cart == old(cart) && orders == old(orders) && orderItems == old(orderItems)
                && nextOrderId == old(nextOrderId) && nextOrderItemId == old(nextOrderItemId)
              else
                && status == 201
                && order == Some(Order(old(nextOrderId), user, total, now))
                && orders == old(orders) + [order.value]
                && orderItems == old(orderItems) + OrderLines(foods, lines, old(nextOrderId), old(nextOrderItemId))
                && cart == OtherUsersLines(old(cart), user)
                && nextOrderId == old(nextOrderId) + 1
                && nextOrderItemId == old(nextOrderItemId) + |lines|
    {
      var lines := UserLines(cart, user);
      if lines == [] {
        return 400, None;
      }
      var total := CartTotal(foods, lines);
      if !FitsDecimal(total) {
        return 500, None;
      }
      var o := PlaceOrder(user, total, now);
      status, order := 201, Some(o);
    }

    /** The writes of a checkout that passed both checks: the order row, one
        order line per cart line of the user, and the user's cart emptied. */
    method PlaceOrder(user: int, total: int, now: int) returns (o: Order)
      requires Valid() && FitsDecimal(total)
      modifies this
      ensures Valid()
      ensures o == Order(old(nextOrderId), user, total, now)
      ensures foods == old(foods) && nextFoodId == old(nextFoodId) && nextCartId == old(nextCartId)
      ensures orders == old(orders) + [o] && nextOrderId == old(nextOrderId) + 1
      ensures orderItems == old(orderItems) + OrderLines(foods, UserLines(old(cart), user), o.id, old(nextOrderItemId))
      ensures nextOrderItemId == old(nextOrderItemId) + |UserLines(old(cart), user)|
      ensures cart == OtherUsersLines(old(cart), user)
    {
      var lines := UserLines(cart, user);
      o := Order(nextOrderId, user, total, now);
      orders := orders + [o];
      nextOrderId := nextOrderId + 1;
      var written := OrderRows(foods, lines, o.id, nextOrderItemId);
      orderItems := orderItems + written;
      nextOrderItemId := nextOrderItemId + |written|;
      cart := OtherUsersLines(cart, user);
      PlaceOrderKeepsValid(old(foods), old(cart), old(orders), old(orderItems), old(nextFoodId), old(nextCartId),
                           old(nextOrderId), old(nextOrderItemId), user, total, now,
                           cart, orders, orderItems, nextOrderId, nextOrderItemId);
    }

    /** GET /api/foods/: the listing, newest first, with every relative image
        path turned into an absolute URL. */
    method FoodList(secure: bool, host: string) returns (data: seq<FoodItem>)
      ensures |data| == |foods|
      ensures forall k :: 0 <= k < |data| ==>
                data[k] == FoodListing(foods)[k].(image := AbsoluteImage(FoodListing(foods)[k].image, secure, host))
    {
      data := AbsoluteImages(FoodListing(foods), secure, host);
    }
  }

  /** The loop of food_list over the serialized rows, rewriting each relative
      image path in place. */
  method AbsoluteImages(listing: seq<FoodItem>, secure: bool, host: string) returns (data: seq<FoodItem>)
    ensures |data| == |listing|
    ensures forall k :: 0 <= k < |data| ==> data[k] == listing[k].(image := AbsoluteImage(listing[k].image, secure, host))
  {
    var a := new FoodItem[|listing|](k requires 0 <= k < |listing| => listing[k]);
    var k := 0;
    while k < a.Length
      invariant 0 <= k <= a.Length
      invariant forall j :: 0 <= j < k ==> a[j] == listing[j].(image := AbsoluteImage(listing[j].image, secure, host))
      invariant forall j :: k <= j < a.Length ==> a[j] == listing[j]
    {
      var image := a[k].image;
      if Present(image) && !StartsWith(image.value, "http") {
        a[k] := a[k].(image := Some(Scheme(secure) + "://" + host + image.value));
      }
      k := k + 1;
    }
    data := a[..];
  }

  /** `if new_quantity and new_quantity > 0`. */
  predicate ValidNewQuantity(q: Option<int>) {
    q.Some? && q.value != 0 && q.value > 0
  }
}
