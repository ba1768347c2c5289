/** The food details page of the client: it reads the food id from the URL,
    finds that food in the full listing, keeps a quantity of at least one,
    and adds the food to the cart for a signed-in visitor. The outcome of
    every request is an input. */
module FoodDetails {
  import opened Common
  import opened Models

  const NotFound: string := "Food item not found"
  const LoadFailed: string := "Failed to load food details"
  const Added: string := "Item added to cart successfully!"
  const AddFailed: string := "Failed to add item to cart"

  /** The whitespace JavaScript's `parseInt` skips at the start (the ASCII part of it). */
  predicate IsSpace(c: char) {
    c == ' ' || c == '\t' || c == '\n' || c == '\r' || c == '\U{B}' || c == '\U{C}'
  }

  function TrimStart(s: string): (r: string)
    ensures |r| <= |s| && r == s[|s| - |r|..]
    ensures r == [] || !IsSpace(r[0])
  {
    if s != [] && IsSpace(s[0]) then TrimStart(s[1..]) else s
  }

  predicate IsHexDigit(c: char) {
    IsDigit(c) || 'a' <= c <= 'f' || 'A' <= c <= 'F'
  }

  function HexValue(c: char): (v: nat)
    requires IsHexDigit(c)
    ensures v < 16
  {
    if IsDigit(c) then c as int - '0' as int
    else if 'a' <= c <= 'f' then c as int - 'a' as int + 10
    else c as int - 'A' as int + 10
  }

  /** The longest run of digits in base `radix` at the start of `s`. */
  function DigitPrefix(s: string, hex: bool): (r: string)
    ensures |r| <= |s| && r == s[..|r|]
    ensures forall i :: 0 <= i < |r| ==> if hex then IsHexDigit(r[i]) else IsDigit(r[i])
    ensures |r| < |s| ==> !(if hex then IsHexDigit(s[|r|]) else IsDigit(s[|r|]))
  {
    if s != [] && (if hex then IsHexDigit(s[0]) else IsDigit(s[0])) then [s[0]] + DigitPrefix(s[1..], hex) else []
  }

  function HexDigitsValue(s: string): nat
    requires forall i :: 0 <= i < |s| ==> IsHexDigit(s[i])
  {
    if s == [] then 0 else HexDigitsValue(s[..|s| - 1]) * 16 + HexValue(s[|s| - 1])
  }

  /** The unsigned part of `parseInt`: hexadecimal after `0x`/`0X`, decimal
      otherwise, up to the first character that is not a digit; `None` when
      there is no digit at all. */
  function ParseDigits(body: string): (r: Option<int>)
    ensures r.Some? ==> r.value >= 0
  {
    var hex := |body| >= 2 && body[0] == '0' && (body[1] == 'x' || body[1] == 'X');
    var digits := DigitPrefix(if hex then body[2..] else body, hex);
    if digits == [] then None
    else if hex then Some(HexDigitsValue(digits))
    else Some(DigitsValue(digits))
  }

  /** JavaScript's `parseInt(s)` without a radix: skip leading whitespace, take
      an optional sign, then the digits. `None` is NaN. */
  function ParseInt(s: string): (r: Option<int>)
  {
    var t := TrimStart(s);
    if t != [] && t[0] == '-' then
      match ParseDigits(t[1..])
      case None => None
      case Some(m) => Some(-m)
    else ParseDigits(if t != [] && t[0] == '+' then t[1..] else t)
  }

  /** A digit run followed by a character that is not a digit is exactly the digit prefix. */
  lemma {:induction false} DigitPrefixOfDecimal(digits: string, rest: string)
    requires forall i :: 0 <= i < |digits| ==> IsDigit(digits[i])
    requires rest == [] || !IsDigit(rest[0])
    ensures DigitPrefix(digits + rest, false) == digits
  {
    if digits == [] {
      assert digits + rest == rest;
    } else {
      assert (digits + rest)[1..] == digits[1..] + rest;
      DigitPrefixOfDecimal(digits[1..], rest);
      assert digits == [digits[0]] + digits[1..];
    }
  }

  /** Text that starts with a digit has no whitespace or sign to skip. */
  lemma ParseIntDigitStart(s: string)
    requires s != [] && IsDigit(s[0])
    ensures ParseInt(s) == ParseDigits(s)
  {
    assert TrimStart(s) == s;
  }

  /** A decimal numeral is never read as hexadecimal: only `0` starts with a
      zero, and then what follows it decides. */
  lemma DecimalNotHex(n: nat, rest: string)
    requires n > 0 || rest == [] || (rest[0] != 'x' && rest[0] != 'X')
    ensures var s := DecimalString(n) + rest;
            !(|s| >= 2 && s[0] == '0' && (s[1] == 'x' || s[1] == 'X'))
  {
    var d := DecimalString(n);
    var s := d + rest;
    if |s| >= 2 && s[0] == '0' {
      if |d| >= 2 {
        assert s[1] == d[1] && IsDigit(d[1]);
      } else {
        assert DigitsValue(d) == d[0] as int - '0' as int by {
          assert d[..0] == [];
        }
        assert s[1] == rest[0];
      }
    }
  }

  /** The ids in the page links are written in decimal, and `parseInt` reads
      them back, whatever follows them as long as it does not continue the
      number (after a lone `0`, an `x` would make it hexadecimal). */
  lemma ParseIntRoundTrip(n: nat, rest: string)
    requires rest == [] || !IsDigit(rest[0])
    requires n > 0 || rest == [] || (rest[0] != 'x' && rest[0] != 'X')
    ensures ParseInt(DecimalString(n) + rest) == Some(n)
  {
    var d := DecimalString(n);
    var s := d + rest;
    assert s[0] == d[0];
    ParseIntDigitStart(s);
    DecimalNotHex(n, rest);
    DigitPrefixOfDecimal(d, rest);
  }

  /** Text with no digit where the number should start is NaN, which equals no id. */
  lemma ParseIntNaN(s: string)
    requires s == [] || (!IsDigit(s[0]) && !IsSpace(s[0]) && s[0] != '-' && s[0] != '+')
    ensures ParseInt(s).None?
  {
    assert TrimStart(s) == s;
    assert s != [] ==> s[0] != '0';
    assert DigitPrefix(s, false) == [];
  }

  /** `foods.find(f => f.id === target)`: the first food with that id; a
      target of NaN (`None`) equals no id. */
  function Lookup(foods: seq<FoodItem>, target: Option<int>): (r: Option<FoodItem>)
    ensures r.Some? ==> r.value in foods && Some(r.value.id) == target
    ensures r.Some? ==> exists j :: 0 <= j < |foods| && foods[j] == r.value
                                  && forall i :: 0 <= i < j ==> Some(foods[i].id) != target
    ensures r.None? <==> forall j :: 0 <= j < |foods| ==> Some(foods[j].id) != target
  {
    match FirstIndex(foods, (f: FoodItem) => Some(f.id) == target)
    case None => None
    case Some(j) => Some(foods[j])
  }

  /** In a listing whose ids are distinct, the lookup finds the food with the
      id the URL names, whichever row it sits in. */
  lemma LookupFindsById(foods: seq<FoodItem>, n: nat, j: nat)
    requires DistinctBy(foods, (f: FoodItem) => f.id) && j < |foods| && foods[j].id == n
    ensures Lookup(foods, ParseInt(DecimalString(n))) == Some(foods[j])
  {
    ParseIntRoundTrip(n, "");
    assert DecimalString(n) + "" == DecimalString(n);
    var k := FirstIndex(foods, (f: FoodItem) => Some(f.id) == Some(n)).value;
    if k != j {
      DistinctAt(foods, (f: FoodItem) => f.id, k, j);
    }
  }

  /** What `getFoods()` resolved to. */
  datatype Listed = ListOk(foods: seq<FoodItem>) | ListFailed

  /** The requests the page sends. */
  datatype Call = GetFoods | AddToCart(foodId: int, quantity: int)

  /** The page's state: the id the URL names, the food shown, the loading
      flag, the quantity picked, the message shown, the requests sent and the
      page navigated to, if any. The id text is fixed for the life of the page,
      so `parseInt` of it is the same at every fetch and is kept parsed. */
  datatype Details = Details(target: Option<int>, food: Option<FoodItem>, loading: bool, quantity: int,
                             message: string, calls: seq<Call>, location: Option<string>)

  /** The first render: nothing loaded yet, a quantity of one. */
  function Initial(param: string): (d: Details)
    ensures d.target == ParseInt(param) && d.food.None? && d.loading && d.quantity == 1
    ensures d.message == "" && d.calls == [] && d.location.None?
  {
    Details(ParseInt(param), None, true, 1, "", [], None)
  }

  /** `fetchFoodDetails`: request the listing and show the first food whose id
      is `parseInt` of the URL text; when no food has that id say it was not
      found, when the request fails say so. Loading is over either way. */
  function Fetch(d: Details, listed: Listed): (r: Details)
    ensures !r.loading && r.calls == d.calls + [GetFoods]
    ensures r.target == d.target && r.quantity == d.quantity && r.location == d.location
    ensures listed.ListOk? ==>
              || (&& r.food.Some? && r.food.value in listed.foods && Some(r.food.value.id) == d.target
                  && r.message == d.message)
              || (&& r.food == d.food && r.message == NotFound
                  && forall j :: 0 <= j < |listed.foods| ==> Some(listed.foods[j].id) != d.target)
    ensures listed.ListOk? && Lookup(listed.foods, d.target).Some? ==> r.food == Lookup(listed.foods, d.target)
    ensures listed.ListFailed? ==> r.food == d.food && r.message == LoadFailed
  {
    var d := d.(loading := true, calls := d.calls + [GetFoods]);
    match listed
    case ListOk(foods) =>
      var found := Lookup(foods, d.target);
      if found.Some? then d.(food := found, loading := false)
      else d.(message := NotFound, loading := false)
    case ListFailed => d.(message := LoadFailed, loading := false)
  }

  /** Opening the page of food `n` from a link shows that food, whichever row
      of a listing with distinct ids it sits in. */
  lemma LinkShowsFood(foods: seq<FoodItem>, n: nat, j: nat)
    requires DistinctBy(foods, (f: FoodItem) => f.id) && j < |foods| && foods[j].id == n
    ensures var r := Fetch(Initial(DecimalString(n)), ListOk(foods));
            r.food == Some(foods[j]) && r.message == "" && !r.loading
  {
    LookupFindsById(foods, n, j);
  }

  /** `handleAddToCart`: a signed-out visitor goes to the login page and
      nothing is sent; otherwise the food and quantity are sent. With no food
      loaded, reading its id throws inside the `try` and the failure message
      is shown. `ok` is whether the request succeeded. */
  function AddToCartStep(d: Details, authenticated: bool, ok: bool): (r: Details)
    ensures r.target == d.target && r.food == d.food && r.quantity == d.quantity && r.loading == d.loading
    ensures !authenticated ==> r.location == Some("/login") && r.calls == d.calls && r.message == d.message
    ensures authenticated ==> r.location == d.location
    ensures authenticated && d.food.Some? ==>
              r.calls == d.calls + [AddToCart(d.food.value.id, d.quantity)] && r.message == (if ok then Added else AddFailed)
    ensures authenticated && d.food.None? ==> r.calls == d.calls && r.message == AddFailed
  {
    if !authenticated then d.(location := Some("/login"))
    else if d.food.None? then d.(message := AddFailed)
    else d.(calls := d.calls + [AddToCart(d.food.value.id, d.quantity)], message := if ok then Added else AddFailed)
  }

  /** The + button. */
  function Increase(d: Details): (r: Details)
    ensures r.quantity == d.quantity + 1 && r == d.(quantity := r.quantity)
  {
    d.(quantity := d.quantity + 1)
  }

  /** The − button: one less, never below one. */
  function Decrease(d: Details): (r: Details)
    ensures r == d.(quantity := r.quantity)
    ensures r.quantity >= 1
    ensures d.quantity > 1 ==> r.quantity == d.quantity - 1
    ensures d.quantity <= 1 ==> r.quantity == 1
  {
    d.(quantity := if d.quantity > 1 then d.quantity - 1 else 1)
  }

  /** The quantity is at least one in every state the page reaches: at first,
      and after every handler. */
  lemma QuantityStaysPositive(d: Details, listed: Listed, authenticated: bool, ok: bool)
    requires d.quantity >= 1
    ensures Fetch(d, listed).quantity >= 1 && AddToCartStep(d, authenticated, ok).quantity >= 1
    ensures Increase(d).quantity >= 1 && Decrease(d).quantity >= 1
  {
  }

  /** Pressing − and then + returns to where the quantity was, once it is above one. */
  lemma DecreaseThenIncrease(d: Details)
    requires d.quantity > 1
    ensures Increase(Decrease(d)) == d
  {
  }

  /** The page as a stateful component. */
  class DetailsScreen {
    var target: Option<int>
    var food: Option<FoodItem>
    var loading: bool
    var quantity: int
    var message: string
    var calls: seq<Call>
    var location: Option<string>

    function State(): Details
      reads this
    {
      Details(target, food, loading, quantity, message, calls, location)
    }

    constructor (param0: string)
      ensures State() == Initial(param0)
    {
      target, food, loading, quantity, message, calls, location := ParseInt(param0), None, true, 1, "", [], None;
    }

    method FetchFoodDetails(listed: Listed)
      modifies this
      ensures State() == Fetch(old(State()), listed)
    {
      loading := true;
      calls := calls + [GetFoods];
      match listed {
        case ListOk(foods) =>
          var found := Lookup(foods, target);
          if found.Some? {
            food := found;
          } else {
            message := NotFound;
          }
        case ListFailed =>
          message := LoadFailed;
      }
      loading := false;
    }

    method HandleAddToCart(authenticated: bool, ok: bool)
      modifies this
      ensures State() == AddToCartStep(old(State()), authenticated, ok)
    {
      if !authenticated {
        location := Some("/login");
        return;
      }
      if food.None? {
        message := AddFailed;
        return;
      }
      calls := calls + [AddToCart(food.value.id, quantity)];
      message := if ok then Added else AddFailed;
    }

    method IncreaseQuantity()
      modifies this`quantity
      ensures State() == Increase(old(State()))
    {
      quantity := quantity + 1;
    }

    method DecreaseQuantity()
      modifies this`quantity
      ensures State() == Decrease(old(State()))
    {
      quantity := if quantity > 1 then quantity - 1 else 1;
    }
  }
}
