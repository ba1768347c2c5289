/** The `create_sample_foods` management command: for each of eight fixed
    dishes, look the name up in the food table and insert the dish only when
    no row carries that name, counting the insertions. The name column is not
    unique, so a name held by two rows makes the lookup raise and the command
    stops there; the rows inserted before that stay (there is no transaction). */
module SampleFoods {
  import opened Common
  import opened Models
  import opened Ledger

  /** One entry of the command's fixed list; the price is in cents. */
  datatype Sample = Sample(name: string, description: string, price: int)

  function Samples(): seq<Sample> {
    [ Sample("Margherita Pizza", "Classic pizza with tomato sauce, mozzarella cheese, and fresh basil", 1299),
      Sample("Pepperoni Pizza", "Delicious pizza topped with pepperoni and mozzarella cheese", 1499),
      Sample("Caesar Salad", "Fresh romaine lettuce with Caesar dressing, croutons, and parmesan", 999),
      Sample("Burger Deluxe", "Juicy beef patty with lettuce, tomato, onion, and special sauce", 1199),
      Sample("Chicken Wings", "Crispy chicken wings with your choice of sauce (BBQ, Buffalo, or Honey Mustard)", 1099),
      Sample("Pasta Carbonara", "Creamy pasta with bacon, eggs, and parmesan cheese", 1399),
      Sample("Fish & Chips", "Beer-battered fish with crispy fries and tartar sauce", 1599),
      Sample("Chocolate Brownie", "Warm chocolate brownie with vanilla ice cream", 699) ]
  }

  predicate DistinctNames(samples: seq<Sample>) {
    forall i, j :: 0 <= i < j < |samples| ==> samples[i].name != samples[j].name
  }

  /** The eight names differ. */
  lemma SamplesDistinct()
    ensures |Samples()| == 8 && DistinctNames(Samples())
  {
  }

  /** Every price fits the column. */
  lemma SamplesFit()
    ensures forall i :: 0 <= i < |Samples()| ==> FitsDecimal(Samples()[i].price)
  {
  }

  /** How many rows of the food table carry this name. */
  function NameCount(foods: seq<FoodItem>, name: string): (n: nat)
    ensures n <= |foods|
    ensures n == 0 <==> forall j :: 0 <= j < |foods| ==> foods[j].name != name
  {
    if foods == [] then 0
    else
      var rest := NameCount(foods[1..], name);
      assert forall j :: 1 <= j < |foods| ==> foods[j] == foods[1..][j - 1];
      (if foods[0].name == name then 1 else 0) + rest
  }

  lemma {:induction false} NameCountConcat(a: seq<FoodItem>, b: seq<FoodItem>, name: string)
    ensures NameCount(a + b, name) == NameCount(a, name) + NameCount(b, name)
  {
    if a == [] {
      assert a + b == b;
    } else {
      assert (a + b)[1..] == a[1..] + b;
      NameCountConcat(a[1..], b, name);
    }
  }

  /** The row `get_or_create` inserts for a dish: the dish's fields, no image,
      and the time of the insert. Every save reads the clock afresh, and rows
      are inserted in id order, so `clock(id)` is the reading at the insert of
      row `id`. */
  function NewRow(s: Sample, id: int, clock: int -> int): FoodItem {
    FoodItem(id, s.name, s.description, s.price, None, clock(id))
  }

  /** The outcome of a run: the food table and its id counter afterwards, how
      many rows were inserted, and whether a lookup raised. */
  datatype Seeded = Seeded(foods: seq<FoodItem>, nextId: int, created: nat, failed: bool)

  /** What the command does to the food table, dish by dish: no row with the
      name inserts one, one row leaves the table alone, two or more raise.
      Rows already in the table are never touched. */
  function SeedRun(foods: seq<FoodItem>, nextId: int, samples: seq<Sample>, clock: int -> int): (r: Seeded)
    ensures |r.foods| == |foods| + r.created && r.nextId == nextId + r.created
    ensures r.foods[..|foods|] == foods
    decreases |samples|
  {
    if samples == [] then Seeded(foods, nextId, 0, false)
    else
      var n := NameCount(foods, samples[0].name);
      if n >= 2 then Seeded(foods, nextId, 0, true)
      else if n == 1 then SeedRun(foods, nextId, samples[1..], clock)
      else
        var foods' := foods + [NewRow(samples[0], nextId, clock)];
        var r := SeedRun(foods', nextId + 1, samples[1..], clock);
        assert r.foods[..|foods|] == r.foods[..|foods'|][..|foods|];
        r.(created := r.created + 1)
  }

  /** The rows inserted for `dishes`, in order, with consecutive ids. */
  function Rows(dishes: seq<Sample>, nextId: int, clock: int -> int): (rows: seq<FoodItem>)
    ensures |rows| == |dishes|
    decreases |dishes|
  {
    if dishes == [] then [] else [NewRow(dishes[0], nextId, clock)] + Rows(dishes[1..], nextId + 1, clock)
  }

  /** Where the run stops: the first dish whose name two or more rows carry,
      or the end of the list. */
  function StopAt(foods: seq<FoodItem>, samples: seq<Sample>): (k: nat)
    ensures k <= |samples|
  {
    match FirstIndex(samples, (s: Sample) => NameCount(foods, s.name) >= 2)
    case None => |samples|
    case Some(k) => k
  }

  lemma DistinctNamesTail(samples: seq<Sample>)
    requires samples != [] && DistinctNames(samples)
    ensures DistinctNames(samples[1..])
  {
    var rest := samples[1..];
    forall i, j | 0 <= i < j < |rest| ensures rest[i].name != rest[j].name {
      assert rest[i] == samples[i + 1] && rest[j] == samples[j + 1];
    }
  }

  /** The table a later dish is looked up in: unchanged after a dish that was
      found, one row longer after a dish that was inserted. */
  function After(foods: seq<FoodItem>, nextId: int, s: Sample, clock: int -> int): seq<FoodItem> {
    if NameCount(foods, s.name) == 0 then foods + [NewRow(s, nextId, clock)] else foods
  }

  /** Inserting one dish does not change how many rows carry any other dish's name. */
  lemma AfterKeepsOtherCounts(foods: seq<FoodItem>, nextId: int, samples: seq<Sample>, clock: int -> int)
    requires samples != [] && DistinctNames(samples)
    ensures forall i :: 1 <= i < |samples| ==>
              NameCount(After(foods, nextId, samples[0], clock), samples[i].name) == NameCount(foods, samples[i].name)
  {
    var row := NewRow(samples[0], nextId, clock);
    forall i | 1 <= i < |samples|
      ensures NameCount(After(foods, nextId, samples[0], clock), samples[i].name) == NameCount(foods, samples[i].name)
    {
      NameCountConcat(foods, [row], samples[i].name);
      assert NameCount([row], samples[i].name) == 0;
    }
  }

  lemma StopStep(foods: seq<FoodItem>, nextId: int, samples: seq<Sample>, clock: int -> int)
    requires samples != [] && DistinctNames(samples) && NameCount(foods, samples[0].name) < 2
    ensures StopAt(foods, samples) == StopAt(After(foods, nextId, samples[0], clock), samples[1..]) + 1
  {
    var foods' := After(foods, nextId, samples[0], clock);
    AfterKeepsOtherCounts(foods, nextId, samples, clock);
    var rest := samples[1..];
    assert forall i :: 0 <= i < |rest| ==> rest[i] == samples[i + 1];
    FirstIndexSameOn(rest, (s: Sample) => NameCount(foods', s.name) >= 2, (s: Sample) => NameCount(foods, s.name) >= 2);
  }

  /** One dish that does not raise: the rest of the run starts from the table after it. */
  lemma SeedRunStep(foods: seq<FoodItem>, nextId: int, samples: seq<Sample>, clock: int -> int)
    requires samples != [] && NameCount(foods, samples[0].name) < 2
    ensures var next' := if NameCount(foods, samples[0].name) == 0 then nextId + 1 else nextId;
            var r := SeedRun(After(foods, nextId, samples[0], clock), next', samples[1..], clock);
            SeedRun(foods, nextId, samples, clock).foods == r.foods
            && SeedRun(foods, nextId, samples, clock).failed == r.failed
  {
  }

  /** The same step, for the whole outcome: the dish adds one to the count when it was inserted. */
  lemma SeedRunCountStep(foods: seq<FoodItem>, nextId: int, samples: seq<Sample>, clock: int -> int)
    requires samples != [] && NameCount(foods, samples[0].name) < 2
    ensures var next' := if NameCount(foods, samples[0].name) == 0 then nextId + 1 else nextId;
            var r := SeedRun(After(foods, nextId, samples[0], clock), next', samples[1..], clock);
            SeedRun(foods, nextId, samples, clock) == r.(created := r.created + next' - nextId)
  {
  }

  /** The run fails exactly when some dish's name is carried by two or more
      rows, and then it stops at the first such dish. */
  lemma {:induction false} SeedRunFails(foods: seq<FoodItem>, nextId: int, samples: seq<Sample>, clock: int -> int)
    requires DistinctNames(samples)
    ensures SeedRun(foods, nextId, samples, clock).failed <==> StopAt(foods, samples) < |samples|
    ensures SeedRun(foods, nextId, samples, clock).failed <==>
              exists i :: 0 <= i < |samples| && NameCount(foods, samples[i].name) >= 2
    decreases |samples|
  {
    if samples != [] && NameCount(foods, samples[0].name) < 2 {
      var foods' := After(foods, nextId, samples[0], clock);
      var next' := if NameCount(foods, samples[0].name) == 0 then nextId + 1 else nextId;
      DistinctNamesTail(samples);
      SeedRunFails(foods', next', samples[1..], clock);
      StopStep(foods, nextId, samples, clock);
    }
  }

  /** The run inserts exactly the dishes before the stopping point whose name
      no row carried, in list order, with consecutive ids from the counter. */
  /** Inserting the missing dishes of a list is inserting the first one if it
      is missing, then the missing dishes of the rest. */
  lemma RowsStep(foods: seq<FoodItem>, nextId: int, head: seq<Sample>, clock: int -> int)
    requires head != []
    ensures var next' := if NameCount(foods, head[0].name) == 0 then nextId + 1 else nextId;
            var missing := (s: Sample) => NameCount(foods, s.name) == 0;
            foods + Rows(Filter(head, missing), nextId, clock)
              == After(foods, nextId, head[0], clock) + Rows(Filter(head[1..], missing), next', clock)
  {
    var missing := (s: Sample) => NameCount(foods, s.name) == 0;
    var later := Filter(head[1..], missing);
    if NameCount(foods, head[0].name) == 0 {
      assert Filter(head, missing) == [head[0]] + later;
      assert ([head[0]] + later)[1..] == later;
      AppendAssoc(foods, [NewRow(head[0], nextId, clock)], Rows(later, nextId + 1, clock));
    } else {
      assert Filter(head, missing) == later;
    }
  }

  /** The run inserts exactly the dishes before the stopping point whose name
      no row carried, in list order, with consecutive ids from the counter. */
  lemma {:induction false} SeedRunInsertsMissing(foods: seq<FoodItem>, nextId: int, samples: seq<Sample>, clock: int -> int)
    requires DistinctNames(samples)
    ensures SeedRun(foods, nextId, samples, clock).foods ==
              foods + Rows(Filter(samples[..StopAt(foods, samples)], (s: Sample) => NameCount(foods, s.name) == 0), nextId, clock)
    decreases |samples|
  {
    var missing := (s: Sample) => NameCount(foods, s.name) == 0;
    if samples == [] || NameCount(foods, samples[0].name) >= 2 {
      assert StopAt(foods, samples) == 0;
      assert samples[..0] == [];
      assert foods + Rows(Filter(samples[..0], missing), nextId, clock) == foods + [] == foods;
    } else {
      var rest := samples[1..];
      var foods' := After(foods, nextId, samples[0], clock);
      var next' := if NameCount(foods, samples[0].name) == 0 then nextId + 1 else nextId;
      var missing' := (s: Sample) => NameCount(foods', s.name) == 0;
      DistinctNamesTail(samples);
      StopStep(foods, nextId, samples, clock);
      var stop' := StopAt(foods', rest);
      var head := samples[..stop' + 1];
      TakeCons(samples, stop' + 1);
      assert head[0] == samples[0] && head[1..] == rest[..stop'];
      AfterKeepsOtherCounts(foods, nextId, samples, clock);
      assert forall i :: 0 <= i < |rest[..stop']| ==> rest[..stop'][i] == samples[i + 1];
      FilterSameOn(rest[..stop'], missing', missing);
      calc {
        SeedRun(foods, nextId, samples, clock).foods;
        { SeedRunStep(foods, nextId, samples, clock); }
        SeedRun(foods', next', rest, clock).foods;
        { SeedRunInsertsMissing(foods', next', rest, clock); }
        foods' + Rows(Filter(rest[..stop'], missing'), next', clock);
        foods' + Rows(Filter(head[1..], missing), next', clock);
        { RowsStep(foods, nextId, head, clock); }
        foods + Rows(Filter(head, missing), nextId, clock);
        foods + Rows(Filter(samples[..StopAt(foods, samples)], missing), nextId, clock);
      }
    }
  }

  /** How many dishes of the list carry this name. */
  function DishCount(dishes: seq<Sample>, name: string): nat {
    if dishes == [] then 0 else (if dishes[0].name == name then 1 else 0) + DishCount(dishes[1..], name)
  }

  lemma {:induction false} RowsNameCount(dishes: seq<Sample>, nextId: int, clock: int -> int, name: string)
    ensures NameCount(Rows(dishes, nextId, clock), name) == DishCount(dishes, name)
    decreases |dishes|
  {
    if dishes != [] {
      RowsNameCount(dishes[1..], nextId + 1, clock, name);
      var rows := Rows(dishes, nextId, clock);
      assert rows[1..] == Rows(dishes[1..], nextId + 1, clock);
    }
  }

  /** With distinct names, a dish appears in a filtered list once if it passes the test and not at all otherwise. */
  lemma {:induction false} FilteredDishCount(dishes: seq<Sample>, p: Sample -> bool, i: nat)
    requires DistinctNames(dishes) && i < |dishes|
    ensures DishCount(Filter(dishes, p), dishes[i].name) == if p(dishes[i]) then 1 else 0
    decreases |dishes|
  {
    var name := dishes[i].name;
    var kept := if p(dishes[0]) then [dishes[0]] else [];
    var rest := Filter(dishes[1..], p);
    assert Filter(dishes, p) == kept + rest;
    DistinctNamesTail(dishes);
    if i == 0 {
      forall k | 0 <= k < |rest| ensures rest[k].name != name {
        var m :| 0 <= m < |dishes[1..]| && dishes[1..][m] == rest[k];
        assert dishes[m + 1] == rest[k];
      }
      DishCountAbsent(rest, name);
    } else {
      assert dishes[1..][i - 1] == dishes[i];
      FilteredDishCount(dishes[1..], p, i - 1);
    }
    if p(dishes[0]) {
      assert (kept + rest)[1..] == rest;
    } else {
      assert kept + rest == rest;
    }
  }

  lemma {:induction false} DishCountAbsent(dishes: seq<Sample>, name: string)
    requires forall k :: 0 <= k < |dishes| ==> dishes[k].name != name
    ensures DishCount(dishes, name) == 0
    decreases |dishes|
  {
    if dishes != [] {
      DishCountAbsent(dishes[1..], name);
    }
  }

  /** After a run that did not raise, every dish's name is carried by exactly one row. */
  lemma SeedRunLeavesOneEach(foods: seq<FoodItem>, nextId: int, samples: seq<Sample>, clock: int -> int)
    requires DistinctNames(samples) && !SeedRun(foods, nextId, samples, clock).failed
    ensures forall i :: 0 <= i < |samples| ==> NameCount(SeedRun(foods, nextId, samples, clock).foods, samples[i].name) == 1
  {
    var r := SeedRun(foods, nextId, samples, clock);
    var missing := (s: Sample) => NameCount(foods, s.name) == 0;
    SeedRunFails(foods, nextId, samples, clock);
    SeedRunInsertsMissing(foods, nextId, samples, clock);
    assert samples[..|samples|] == samples;
    var added := Filter(samples, missing);
    forall i | 0 <= i < |samples| ensures NameCount(r.foods, samples[i].name) == 1 {
      NameCountConcat(foods, Rows(added, nextId, clock), samples[i].name);
      RowsNameCount(added, nextId, clock, samples[i].name);
      FilteredDishCount(samples, missing, i);
    }
  }

  /** When every dish is already there once, a run inserts nothing and does not raise. */
  lemma {:induction false} SeedRunNoOp(foods: seq<FoodItem>, nextId: int, samples: seq<Sample>, clock: int -> int)
    requires forall i :: 0 <= i < |samples| ==> NameCount(foods, samples[i].name) == 1
    ensures SeedRun(foods, nextId, samples, clock) == Seeded(foods, nextId, 0, false)
    decreases |samples|
  {
    if samples != [] {
      assert forall i :: 1 <= i < |samples| ==> samples[1..][i - 1] == samples[i];
      SeedRunNoOp(foods, nextId, samples[1..], clock);
    }
  }

  /** Row `i` of a run of inserted rows is dish `i` with the `i`-th next id. */
  lemma {:induction false} RowsAt(dishes: seq<Sample>, nextId: int, clock: int -> int, i: nat)
    requires i < |dishes|
    ensures Rows(dishes, nextId, clock)[i] == NewRow(dishes[i], nextId + i, clock)
    decreases i
  {
    if i > 0 {
      RowsAt(dishes[1..], nextId + 1, clock, i - 1);
    }
  }

  /** When no dish is in the table yet, the run inserts every dish, in list
      order, with consecutive ids. */
  lemma {:induction false} FreshRunInsertsAll(foods: seq<FoodItem>, nextId: int, samples: seq<Sample>, clock: int -> int)
    requires DistinctNames(samples)
    requires forall i :: 0 <= i < |samples| ==> NameCount(foods, samples[i].name) == 0
    ensures SeedRun(foods, nextId, samples, clock)
              == Seeded(foods + Rows(samples, nextId, clock), nextId + |samples|, |samples|, false)
    decreases |samples|
  {
    if samples != [] {
      var row := NewRow(samples[0], nextId, clock);
      var rest := samples[1..];
      assert NameCount(foods, samples[0].name) == 0;
      AfterKeepsOtherCounts(foods, nextId, samples, clock);
      DistinctNamesTail(samples);
      assert After(foods, nextId, samples[0], clock) == foods + [row];
      SeedRunCountStep(foods, nextId, samples, clock);
      assert forall i :: 0 <= i < |rest| ==> rest[i] == samples[i + 1];
      FreshRunInsertsAll(foods + [row], nextId + 1, rest, clock);
      var tail := Rows(rest, nextId + 1, clock);
      assert Rows(samples, nextId, clock) == [row] + tail;
      assert foods + [row] + tail == foods + ([row] + tail);
    }
  }

  /** Rows inserted under a clock that moves forward are listed last-inserted first. */
  lemma RowsListedLastFirst(dishes: seq<Sample>, nextId: int, clock: int -> int)
    requires dishes != []
    requires forall a, b :: a < b ==> clock(a) < clock(b)
    ensures |FoodListing(Rows(dishes, nextId, clock))| > 0
    ensures FoodListing(Rows(dishes, nextId, clock))[0] == NewRow(dishes[|dishes| - 1], nextId + |dishes| - 1, clock)
  {
    var rows := Rows(dishes, nextId, clock);
    RowsLastNewest(dishes, nextId, clock);
    FoodListingHead(rows, rows[|dishes| - 1]);
  }

  /** Under a clock that moves forward, the last inserted row is strictly
      newer than every other one, and it is the last dish with the last id. */
  lemma RowsLastNewest(dishes: seq<Sample>, nextId: int, clock: int -> int)
    requires dishes != []
    requires forall a, b :: a < b ==> clock(a) < clock(b)
    ensures var rows := Rows(dishes, nextId, clock);
            && rows[|dishes| - 1] == NewRow(dishes[|dishes| - 1], nextId + |dishes| - 1, clock)
            && forall y :: y in rows && y != rows[|dishes| - 1] ==> y.createdAt < rows[|dishes| - 1].createdAt
  {
    var rows := Rows(dishes, nextId, clock);
    var last := |dishes| - 1;
    RowsAt(dishes, nextId, clock, last);
    forall y | y in rows && y != rows[last] ensures y.createdAt < rows[last].createdAt {
      var k :| 0 <= k < |rows| && rows[k] == y;
      RowsAt(dishes, nextId, clock, k);
    }
  }

  /** Every save reads a later time than the one before it, so a freshly
      seeded table is listed newest first with the last dish of the list at
      the top. */
  lemma FreshSeedListsLastFirst(nextId: int, samples: seq<Sample>, clock: int -> int)
    requires samples != [] && DistinctNames(samples)
    requires forall a, b :: a < b ==> clock(a) < clock(b)
    ensures var r := SeedRun([], nextId, samples, clock);
            |FoodListing(r.foods)| > 0
            && FoodListing(r.foods)[0] == NewRow(samples[|samples| - 1], nextId + |samples| - 1, clock)
  {
    FreshRunInsertsAll([], nextId, samples, clock);
    assert [] + Rows(samples, nextId, clock) == Rows(samples, nextId, clock);
    RowsListedLastFirst(samples, nextId, clock);
  }

  /** Seeding an empty table lists the brownie, the last dish the command
      inserts, first. */
  lemma SeededListingStartsWithLastDish(nextId: int, clock: int -> int)
    requires forall a, b :: a < b ==> clock(a) < clock(b)
    ensures var r := SeedRun([], nextId, Samples(), clock);
            |FoodListing(r.foods)| > 0 && FoodListing(r.foods)[0].name == Samples()[7].name
  {
    SamplesDistinct();
    FreshSeedListsLastFirst(nextId, Samples(), clock);
  }

  /** Running the command a second time, after a run that did not raise, inserts nothing. */
  lemma SecondRunCreatesNothing(foods: seq<FoodItem>, nextId: int, clock: int -> int, later: int -> int)
    requires !SeedRun(foods, nextId, Samples(), clock).failed
    ensures var r := SeedRun(foods, nextId, Samples(), clock);
            SeedRun(r.foods, r.nextId, Samples(), later) == Seeded(r.foods, r.nextId, 0, false)
  {
    SamplesDistinct();
    SeedRunLeavesOneEach(foods, nextId, Samples(), clock);
    var r := SeedRun(foods, nextId, Samples(), clock);
    SeedRunNoOp(r.foods, r.nextId, Samples(), later);
  }

  /** A run keeps the database valid: every inserted row takes the next id
      and a price that fits the column. */
  lemma {:induction false} SeedRunKeepsValid(foods: seq<FoodItem>, cart: seq<CartItem>, orders: seq<Order>, items: seq<OrderItem>,
                                             nextFoodId: int, nextCartId: int, nextOrderId: int, nextOrderItemId: int,
                                             samples: seq<Sample>, clock: int -> int)
    requires DatabaseValid(foods, cart, orders, items, nextFoodId, nextCartId, nextOrderId, nextOrderItemId)
    requires forall i :: 0 <= i < |samples| ==> FitsDecimal(samples[i].price)
    ensures var r := SeedRun(foods, nextFoodId, samples, clock);
            DatabaseValid(r.foods, cart, orders, items, r.nextId, nextCartId, nextOrderId, nextOrderItemId)
    decreases |samples|
  {
    if samples != [] && NameCount(foods, samples[0].name) < 2 {
      var foods' := After(foods, nextFoodId, samples[0], clock);
      var next' := if NameCount(foods, samples[0].name) == 0 then nextFoodId + 1 else nextFoodId;
      if NameCount(foods, samples[0].name) == 0 {
        AddFoodKeepsValid(foods, cart, orders, items, nextFoodId, nextCartId, nextOrderId, nextOrderItemId,
                          NewRow(samples[0], nextFoodId, clock));
      }
      assert forall i :: 1 <= i < |samples| ==> samples[1..][i - 1] == samples[i];
      SeedRunKeepsValid(foods', cart, orders, items, next', nextCartId, nextOrderId, nextOrderItemId, samples[1..], clock);
    }
  }

  /** A run's outcome with `c` more insertions counted. */
  function Counted(r: Seeded, c: nat): Seeded {
    r.(created := r.created + c)
  }

  /** One turn of the command's loop on a dish that does not raise. */
  lemma SeedLoopStep(total: Seeded, table: seq<FoodItem>, next: int, created: nat, samples: seq<Sample>, k: nat, clock: int -> int)
    requires k < |samples| && NameCount(table, samples[k].name) < 2
    requires total == Counted(SeedRun(table, next, samples[k..], clock), created)
    ensures var n := NameCount(table, samples[k].name);
            var next' := if n == 0 then next + 1 else next;
            var created' := if n == 0 then created + 1 else created;
            total == Counted(SeedRun(After(table, next, samples[k], clock), next', samples[k + 1..], clock), created')
  {
    assert samples[k..][0] == samples[k] && samples[k..][1..] == samples[k + 1..];
    SeedRunCountStep(table, next, samples[k..], clock);
  }

  /** The command's loop: one `get_or_create` per dish, counting insertions;
      a lookup that finds two rows raises and ends the loop. */
  method Seed(foods: seq<FoodItem>, nextId: int, samples: seq<Sample>, clock: int -> int)
    returns (table: seq<FoodItem>, next: int, created: nat, completed: bool)
    ensures SeedRun(foods, nextId, samples, clock) == Seeded(table, next, created, !completed)
  {
    table, next, created, completed := foods, nextId, 0, true;
    var k := 0;
    while k < |samples|
      invariant 0 <= k <= |samples|
      invariant SeedRun(foods, nextId, samples, clock) == Counted(SeedRun(table, next, samples[k..], clock), created)
    {
      var n := NameCount(table, samples[k].name);
      if n >= 2 {
        assert samples[k..][0] == samples[k];
        completed := false;
        return;
      }
      SeedLoopStep(SeedRun(foods, nextId, samples, clock), table, next, created, samples, k, clock);
      if n == 0 {
        table := table + [NewRow(samples[k], next, clock)];
        next := next + 1;
        created := created + 1;
      }
      k := k + 1;
    }
    assert samples[k..] == [];
  }

  /** Seed the food table of the database with `samples`. */
  method SeedDatabase(db: Database, samples: seq<Sample>, clock: int -> int) returns (created: nat, completed: bool)
    requires db.Valid()
    requires forall i :: 0 <= i < |samples| ==> FitsDecimal(samples[i].price)
    modifies db
    ensures db.Valid()
    ensures var r := SeedRun(old(db.foods), old(db.nextFoodId), samples, clock);
            db.foods == r.foods && db.nextFoodId == r.nextId && created == r.created && completed == !r.failed
    ensures db.cart == old(db.cart) && db.orders == old(db.orders) && db.orderItems == old(db.orderItems)
    ensures db.nextCartId == old(db.nextCartId) && db.nextOrderId == old(db.nextOrderId)
    ensures db.nextOrderItemId == old(db.nextOrderItemId)
  {
    SeedRunKeepsValid(db.foods, db.cart, db.orders, db.orderItems, db.nextFoodId, db.nextCartId, db.nextOrderId,
                      db.nextOrderItemId, samples, clock);
    var table, next;
    table, next, created, completed := Seed(db.foods, db.nextFoodId, samples, clock);
    db.foods, db.nextFoodId := table, next;
  }

  /** `Command.handle`: seed the database with the eight dishes. The clock is a parameter. */
  method Handle(db: Database, clock: int -> int) returns (created: nat, completed: bool)
    requires db.Valid()
    modifies db
    ensures db.Valid()
    ensures var r := SeedRun(old(db.foods), old(db.nextFoodId), Samples(), clock);
            db.foods == r.foods && db.nextFoodId == r.nextId && created == r.created && completed == !r.failed
    ensures db.cart == old(db.cart) && db.orders == old(db.orders) && db.orderItems == old(db.orderItems)
    ensures db.nextCartId == old(db.nextCartId) && db.nextOrderId == old(db.nextOrderId)
    ensures db.nextOrderItemId == old(db.nextOrderItemId)
  {
    SamplesFit();
    created, completed := SeedDatabase(db, Samples(), clock);
  }
}
