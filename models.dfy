/** The four database tables of the backend (FoodItem, CartItem, Order,
    OrderItem), the constraints the schema puts on them, the cascade that
    deleting a food triggers, and the newest-first ordering of listings.
    Every table is a sequence of rows in primary-key order; money is held in
    integer cents. */
module Models {
  import opened Common

  /** A DecimalField with max_digits=10 and decimal_places=2 holds at most
      eight integer digits and two fractional digits: in cents, at most ten digits. */
  const MaxCents: int := 9_999_999_999

  predicate FitsDecimal(cents: int) {
    -MaxCents <= cents <= MaxCents
  }

  /** CartItem.quantity defaults to 1 when a row is created without one. */
  const DefaultQuantity: int := 1

  datatype FoodItem = FoodItem(id: int, name: string, description: string, price: int, image: Option<string>, createdAt: int)

  datatype CartItem = CartItem(id: int, user: int, food: int, quantity: int, createdAt: int)

  datatype Order = Order(id: int, user: int, totalPrice: int, createdAt: int)

  /** `price` is the food's price copied when the order was placed. */
  datatype OrderItem = OrderItem(id: int, order: int, food: int, quantity: int, price: int)

  datatype Tables = Tables(foods: seq<FoodItem>, cart: seq<CartItem>, orders: seq<Order>, orderItems: seq<OrderItem>)

  /** Some row of the food table has this primary key. */
  predicate HasFood(foods: seq<FoodItem>, id: int) {
    exists j :: 0 <= j < |foods| && foods[j].id == id
  }

  /** Some row of the order table has this primary key. */
  predicate HasOrder(orders: seq<Order>, id: int) {
    exists j :: 0 <= j < |orders| && orders[j].id == id
  }

  ghost predicate FoodsValid(foods: seq<FoodItem>) {
    && DistinctBy(foods, (f: FoodItem) => f.id)
    && forall f :: f in foods ==> FitsDecimal(f.price)
  }

  /** unique_together = (user, food); a PositiveIntegerField quantity is never
      negative; every line points at an existing food. */
  ghost predicate CartValid(foods: seq<FoodItem>, cart: seq<CartItem>) {
    && DistinctBy(cart, (c: CartItem) => c.id)
    && DistinctBy(cart, (c: CartItem) => (c.user, c.food))
    && forall c :: c in cart ==> c.quantity >= 0 && HasFood(foods, c.food)
  }

  /** Changing the quantity of a line to a non-negative value keeps the cart table valid. */
  lemma SetQuantityKeepsCartValid(foods: seq<FoodItem>, cart: seq<CartItem>, i: nat, q: int)
    requires CartValid(foods, cart) && i < |cart| && q >= 0
    ensures CartValid(foods, cart[i := cart[i].(quantity := q)])
  {
    var c := cart[i].(quantity := q);
    DistinctReplace(cart, i, c, (x: CartItem) => x.id);
    DistinctReplace(cart, i, c, (x: CartItem) => (x.user, x.food));
    assert cart[i] in cart;
  }

  /** A new line with a fresh id, for a (user, food) pair not yet in the cart,
      keeps the cart table valid. */
  lemma AppendKeepsCartValid(foods: seq<FoodItem>, cart: seq<CartItem>, c: CartItem)
    requires CartValid(foods, cart) && c.quantity >= 0 && HasFood(foods, c.food)
    requires forall j :: 0 <= j < |cart| ==> cart[j].id != c.id && (cart[j].user, cart[j].food) != (c.user, c.food)
    ensures CartValid(foods, cart + [c])
  {
    DistinctAppend(cart, c, (x: CartItem) => x.id);
    DistinctAppend(cart, c, (x: CartItem) => (x.user, x.food));
  }

  lemma RemoveKeepsCartValid(foods: seq<FoodItem>, cart: seq<CartItem>, i: nat)
    requires CartValid(foods, cart) && i < |cart|
    ensures CartValid(foods, cart[..i] + cart[i + 1..])
  {
    DistinctRemove(cart, i, (x: CartItem) => x.id);
    DistinctRemove(cart, i, (x: CartItem) => (x.user, x.food));
  }

  lemma FilterKeepsCartValid(foods: seq<FoodItem>, cart: seq<CartItem>, p: CartItem -> bool)
    requires CartValid(foods, cart)
    ensures CartValid(foods, Filter(cart, p))
  {
    FilterDistinct(cart, p, (x: CartItem) => x.id);
    FilterDistinct(cart, p, (x: CartItem) => (x.user, x.food));
  }

  ghost predicate OrdersValid(foods: seq<FoodItem>, orders: seq<Order>, items: seq<OrderItem>) {
    && DistinctBy(orders, (o: Order) => o.id)
    && (forall o :: o in orders ==> FitsDecimal(o.totalPrice))
    && OrderItemsValid(foods, orders, items)
  }

  /** Order lines have distinct ids, a non-negative quantity, a price that fits
      the column, and point at an existing order and an existing food. */
  ghost predicate OrderItemsValid(foods: seq<FoodItem>, orders: seq<Order>, items: seq<OrderItem>) {
    && DistinctBy(items, (x: OrderItem) => x.id)
    && forall x :: x in items ==>
         x.quantity >= 0 && FitsDecimal(x.price) && HasOrder(orders, x.order) && HasFood(foods, x.food)
  }

  /** A new order with a fresh id and a total that fits the column keeps the order tables valid. */
  lemma AppendOrderKeepsValid(foods: seq<FoodItem>, orders: seq<Order>, items: seq<OrderItem>, o: Order)
    requires OrdersValid(foods, orders, items) && FitsDecimal(o.totalPrice)
    requires forall j :: 0 <= j < |orders| ==> orders[j].id != o.id
    ensures HasOrder(orders + [o], o.id)
    ensures OrdersValid(foods, orders + [o], items)
  {
    DistinctAppend(orders, o, (x: Order) => x.id);
    assert (orders + [o])[|orders|] == o;
    forall id | HasOrder(orders, id) ensures HasOrder(orders + [o], id) {
      var j :| 0 <= j < |orders| && orders[j].id == id;
      assert (orders + [o])[j] == orders[j];
    }
  }

  /** A new order line with a fresh id that points at an existing order and food keeps the order tables valid. */
  lemma AppendOrderItemKeepsValid(foods: seq<FoodItem>, orders: seq<Order>, items: seq<OrderItem>, x: OrderItem)
    requires OrderItemsValid(foods, orders, items)
    requires x.quantity >= 0 && FitsDecimal(x.price) && HasOrder(orders, x.order) && HasFood(foods, x.food)
    requires forall j :: 0 <= j < |items| ==> items[j].id != x.id
    ensures OrderItemsValid(foods, orders, items + [x])
  {
    DistinctAppend(items, x, (y: OrderItem) => y.id);
  }

  ghost predicate TablesValid(t: Tables) {
    FoodsValid(t.foods) && CartValid(t.foods, t.cart) && OrdersValid(t.foods, t.orders, t.orderItems)
  }

  /** A new food with a fresh id and a price that fits the column keeps the
      tables valid: every cart line and order line still finds its food. */
  lemma AppendFoodKeepsTablesValid(t: Tables, f: FoodItem)
    requires TablesValid(t) && FitsDecimal(f.price)
    requires forall j :: 0 <= j < |t.foods| ==> t.foods[j].id != f.id
    ensures TablesValid(t.(foods := t.foods + [f]))
  {
    var foods := t.foods + [f];
    DistinctAppend(t.foods, f, (x: FoodItem) => x.id);
    forall id | HasFood(t.foods, id) ensures HasFood(foods, id) {
      var j :| 0 <= j < |t.foods| && t.foods[j].id == id;
      assert foods[j] == t.foods[j];
    }
  }

  /** Deleting a FoodItem: on_delete=CASCADE on CartItem.food and OrderItem.food
      removes every cart line and every order line that points at it. */
  function DeleteFood(t: Tables, foodId: int): (r: Tables)
    ensures r.orders == t.orders
    ensures forall f :: f in r.foods <==> f in t.foods && f.id != foodId
    ensures forall c :: c in r.cart <==> c in t.cart && c.food != foodId
    ensures forall x :: x in r.orderItems <==> x in t.orderItems && x.food != foodId
  {
    var foods := Filter(t.foods, (f: FoodItem) => f.id != foodId);
    var cart := Filter(t.cart, (c: CartItem) => c.food != foodId);
    var items := Filter(t.orderItems, (x: OrderItem) => x.food != foodId);
    FilterComplete(t.foods, (f: FoodItem) => f.id != foodId);
    FilterComplete(t.cart, (c: CartItem) => c.food != foodId);
    FilterComplete(t.orderItems, (x: OrderItem) => x.food != foodId);
    assert forall f :: f in foods <==> f in t.foods && f.id != foodId by {
      forall f ensures f in foods <==> f in t.foods && f.id != foodId {
        if f in t.foods && f.id != foodId {
          var k :| 0 <= k < |t.foods| && t.foods[k] == f;
        }
      }
    }
    assert forall c :: c in cart <==> c in t.cart && c.food != foodId by {
      forall c ensures c in cart <==> c in t.cart && c.food != foodId {
        if c in t.cart && c.food != foodId {
          var k :| 0 <= k < |t.cart| && t.cart[k] == c;
        }
      }
    }
    assert forall x :: x in items <==> x in t.orderItems && x.food != foodId by {
      forall x ensures x in items <==> x in t.orderItems && x.food != foodId {
        if x in t.orderItems && x.food != foodId {
          var k :| 0 <= k < |t.orderItems| && t.orderItems[k] == x;
        }
      }
    }
    Tables(foods, cart, t.orders, items)
  }

  /** The cascade leaves a consistent database behind: no dangling reference
      to the deleted food, and every other constraint still holds. */
  lemma DeleteFoodKeepsTablesValid(t: Tables, foodId: int)
    requires TablesValid(t)
    ensures TablesValid(DeleteFood(t, foodId))
    ensures !HasFood(DeleteFood(t, foodId).foods, foodId)
  {
    var r := DeleteFood(t, foodId);
    FilterDistinct(t.foods, (f: FoodItem) => f.id != foodId, (f: FoodItem) => f.id);
    FilterDistinct(t.cart, (c: CartItem) => c.food != foodId, (c: CartItem) => c.id);
    FilterDistinct(t.cart, (c: CartItem) => c.food != foodId, (c: CartItem) => (c.user, c.food));
    FilterDistinct(t.orderItems, (x: OrderItem) => x.food != foodId, (x: OrderItem) => x.id);
    forall id | id != foodId && HasFood(t.foods, id) ensures HasFood(r.foods, id) {
      var j :| 0 <= j < |t.foods| && t.foods[j].id == id;
      assert t.foods[j] in r.foods;
    }
  }

  /** Listings sorted with `ordering = ['-created_at']`: each row is at least
      as new as the row after it. */
  ghost predicate NewestFirstOrder<T>(s: seq<T>, createdAt: T -> int)
    decreases |s|
  {
    |s| <= 1 || (createdAt(s[0]) >= createdAt(s[1]) && NewestFirstOrder(s[1..], createdAt))
  }

  /** In a newest-first listing every row is at least as new as every later row. */
  lemma {:induction false} NewestFirstPairwise<T>(s: seq<T>, createdAt: T -> int, i: nat, j: nat)
    requires NewestFirstOrder(s, createdAt) && i <= j < |s|
    ensures createdAt(s[i]) >= createdAt(s[j])
    decreases j
  {
    if i < j {
      NewestFirstPairwise(s, createdAt, i, j - 1);
      NewestFirstStep(s, createdAt, j - 1);
    }
  }

  lemma {:induction false} NewestFirstStep<T>(s: seq<T>, createdAt: T -> int, k: nat)
    requires NewestFirstOrder(s, createdAt) && k + 1 < |s|
    ensures createdAt(s[k]) >= createdAt(s[k + 1])
    decreases k
  {
    if k > 0 {
      NewestFirstStep(s[1..], createdAt, k - 1);
      assert s[1..][k - 1] == s[k] && s[1..][k] == s[k + 1];
    }
  }

  function InsertByAge<T>(x: T, s: seq<T>, createdAt: T -> int): (r: seq<T>)
    requires NewestFirstOrder(s, createdAt)
    ensures |r| == |s| + 1
    ensures r[0] == x || (s != [] && r[0] == s[0])
    ensures NewestFirstOrder(r, createdAt)
  {
    if s == [] || createdAt(x) >= createdAt(s[0]) then
      [x] + s
    else
      var rest := InsertByAge(x, s[1..], createdAt);
      assert s == [s[0]] + s[1..];
      assert ([s[0]] + rest)[1..] == rest;
      [s[0]] + rest
  }

  lemma {:induction false} InsertByAgePermutes<T>(x: T, s: seq<T>, createdAt: T -> int)
    requires NewestFirstOrder(s, createdAt)
    ensures multiset(InsertByAge(x, s, createdAt)) == multiset(s) + multiset{x}
  {
    if s != [] && createdAt(x) < createdAt(s[0]) {
      InsertByAgePermutes(x, s[1..], createdAt);
      assert s == [s[0]] + s[1..];
    }
  }

  /** The rows of a table as a listing presents them: newest first. */
  function NewestFirst<T>(s: seq<T>, createdAt: T -> int): (r: seq<T>)
    ensures |r| == |s|
    ensures NewestFirstOrder(r, createdAt)
  {
    if s == [] then []
    else InsertByAge(s[0], NewestFirst(s[1..], createdAt), createdAt)
  }

  /** A row strictly newer than every other row of the table heads the listing. */
  lemma NewestFirstHead<T>(s: seq<T>, createdAt: T -> int, x: T)
    requires x in s
    requires forall y :: y in s && y != x ==> createdAt(y) < createdAt(x)
    ensures |NewestFirst(s, createdAt)| > 0 && NewestFirst(s, createdAt)[0] == x
  {
    var r := NewestFirst(s, createdAt);
    NewestFirstPermutes(s, createdAt);
    assert x in multiset(r);
    var k :| 0 <= k < |r| && r[k] == x;
    NewestFirstPairwise(r, createdAt, 0, k);
    assert r[0] in multiset(s);
  }

  /** The listing holds the same rows as the table, each exactly as often. */
  lemma {:induction false} NewestFirstPermutes<T>(s: seq<T>, createdAt: T -> int)
    ensures multiset(NewestFirst(s, createdAt)) == multiset(s)
  {
    if s != [] {
      NewestFirstPermutes(s[1..], createdAt);
      InsertByAgePermutes(s[0], NewestFirst(s[1..], createdAt), createdAt);
      assert s == [s[0]] + s[1..];
    }
  }
}
