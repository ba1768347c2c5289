# QuickBite cart ledger and client policy, in Dafny

This project models the part of QuickBite, a small food-ordering web
application, that holds real logic.

On the Django backend it covers:

- the four database tables: `FoodItem`, `CartItem`, `Order` and `OrderItem`;
- the REST views that read and write those tables: `cart_add`, `cart_update`, `cart_view`, `create_order`, `food_list` and `login_user`;
- the `create_sample_foods` command that seeds the food table.

On the React client it covers:

- the session store (`AuthContext`);
- the state machines of the cart page, the food-details page and the login page;
- the placeholder-image selector of the food card.

Money is held in integer cents throughout. A `DecimalField(max_digits=10,
decimal_places=2)` becomes an integer of at most ten digits.

The modules are:

- `common.dfy` (`Common`): shared helpers: an option type, JavaScript/Python truthiness, decimal rendering, substring tests, the list operations `Filter` and `FirstIndex`, and uniqueness of keys.
- `models.dfy` (`Models`): the tables and the constraints the schema puts on them. This covers the unique `(user, food)` pair, non-negative quantities, references to existing rows and prices that fit the column. It also covers the cascade that deleting a food triggers and the newest-first ordering of listings.
- `ledger.dfy` (`Ledger`): the views.
  - The database is a class `Database` whose fields are the four tables and their auto-increment counters.
  - `CartAdd`, `CartUpdate`, `CreateOrder` and `FoodList` are methods on it.
  - The cart total, the cart response, the order lines and the login checks are functions.
  - Every writing method keeps the database valid.
- `seeding.dfy` (`SampleFoods`): the seeding command as a loop over the eight fixed dishes, proved against a function `SeedRun`. The lemmas beside it prove what the command promises: only missing dishes are inserted, the count is right, and a second run inserts nothing.
- `auth_context.dfy` (`Auth`): the session store as a class over local storage, the token, the user and the axios `Authorization` header. React's commit of the `[token]` effect is an explicit step, `Commit`.
- `cart_page.dfy` (`CartPage`), `food_details.dfy` (`FoodDetails`) and `login_page.dfy` (`LoginPage`): each page is a class whose handlers are proved equal to pure step functions over the page state. The outcome of each request (success, failure, the data returned) is a parameter of the step.
- `food_card.dfy` (`FoodCard`): the keyword-priority choice of a placeholder image, and the component's image expression.

The model follows the code as written, including these behaviours a reader might not expect:

- An empty token string counts as signed out, but `login("", …)` still sets a user. So "no token implies no user" does not hold for the empty token (`Auth.LoginAuthenticates`).
- After a reload the stored `userId` is never read back: the user is rebuilt from the stored username alone (`Auth.ReloadAfterLogin`). The same happens in the commit that follows a login with a new token (`Auth.LoginThenCommit`).
- `cart_add` does not check the sign of `quantity`.
  - The model accepts any integer, including 0.
  - A write that would store a negative value in the `PositiveIntegerField` column is refused by the column's check, and the view answers 500 with nothing changed.
- `create_order` runs no transaction and is modelled as one sequential step. An order total that does not fit the `total_price` column is a failed write and answers 500, with nothing written. This holds for Django before 5.0, where saving the order rejects the value; see `Ledger.Database.CreateOrder` under "## Left out".
- `get_or_create` in the seeding command looks a dish up by name, and names are not unique. A name held by two rows makes the lookup raise and the command stops there, and the rows inserted before that point stay.

## Model

| member | source | states |
|---|---|---|
| Models.SetQuantityKeepsCartValid | backend/api/models.py:33-43 | setting a line's quantity to a non-negative value keeps line ids and (user, food) pairs unique and every line pointing at an existing food |
| Models.AppendKeepsCartValid | backend/api/models.py:33-43 | a new line with a fresh id, for a (user, food) pair the cart does not hold, keeps the cart constraints |
| Models.RemoveKeepsCartValid | backend/api/models.py:33-43 | deleting any one line keeps the cart constraints |
| Models.FilterKeepsCartValid | backend/api/models.py:33-43 | keeping any subset of the lines keeps the cart constraints |
| Models.AppendOrderKeepsValid | backend/api/models.py:46-60 | a new order with a fresh id and a total that fits the column keeps the order tables valid, and the new order can be referenced |
| Models.AppendOrderItemKeepsValid | backend/api/models.py:63-71 | a new order line with a fresh id, pointing at an existing order and food, keeps the order tables valid |
| Models.AppendFoodKeepsTablesValid | backend/api/models.py:9-18 | a new food with a fresh id and a fitting price keeps every table valid, and every existing reference still resolves |
| Models.DeleteFood | backend/api/models.py:33-69 | the cascade of deleting a food keeps exactly the foods, cart lines and order lines that do not refer to it, and leaves orders alone |
| Models.DeleteFoodKeepsTablesValid | backend/api/models.py:33-69 | after the cascade the tables are valid and the deleted food is gone |
| Models.NewestFirstPairwise | backend/api/models.py:24-25 | in a newest-first listing every row is at least as new as every later row |
| Models.NewestFirst | backend/api/models.py:24-25 | the listing has as many rows as the table and is ordered newest first |
| Models.NewestFirstHead | backend/api/models.py:24-25 | a row strictly newer than every other row heads the listing |
| Models.NewestFirstPermutes | backend/api/models.py:24-25 | the listing holds the same rows as the table, each exactly as often |
| Ledger.FoodListingHead | backend/api/views.py:119-121 | the food strictly newer than every other food is the first one `food_list` returns |
| Ledger.FoodIndexFinds | backend/api/views.py:186-187 | a food id that is in the table is found by the lookup |
| Ledger.CartTotalAppend | backend/api/views.py:157 | the total of two runs of lines is the sum of their totals |
| Ledger.ReplaceLineTotal | backend/api/views.py:201-204 | changing one line changes its owner's total by the difference of the two line values, and no other user's total |
| Ledger.AppendLineTotal | backend/api/views.py:195-199 | a new line adds its value to its owner's total only |
| Ledger.RemoveLineTotal | backend/api/views.py:239-241 | deleting a line takes its value off its owner's total only |
| Ledger.RemoveExactlyThatLine | backend/api/views.py:239-245 | DELETE removes exactly the addressed line: every remaining line was there before and differs from it, and every other line remains |
| Ledger.OtherUsersUntouched | backend/api/views.py:257-286 | clearing one user's cart leaves that user with no lines and every other user's lines exactly as they were |
| Ledger.SerializeLines | backend/api/views.py:153-157 | one response line per cart line, in order, with its id and quantity and the whole current row of its food (the first row with that id), and their value is the cart total |
| Ledger.CartView | backend/api/views.py:152-162 | the listed lines are exactly the requesting user's lines, in table order (an order the model chooses, see "## Left out"), each serialized as `SerializeLines` states; the response total is the sum of price × quantity over them and equals that user's cart total |
| Ledger.CartViewIgnoresOtherUsers | backend/api/views.py:153-157 | other users' lines have no effect on a user's cart view |
| Ledger.OrderLines | backend/api/views.py:275-283 | one order line per cart line, in order, copying food, quantity and the food's current price, with consecutive ids |
| Ledger.OrderRows | backend/api/views.py:275-283 | the loop that creates the order lines writes exactly `OrderLines` |
| Ledger.OrderLinesKeepValid | backend/api/views.py:276-282 | writing the order lines keeps the order-line table valid, and every id stays below the advanced counter |
| Ledger.OrderLinesTotal | backend/api/views.py:266-282 | the order total equals the sum over its order lines of their own stored price × quantity, so it does not depend on later catalogue prices |
| Ledger.AbsoluteImageShape | backend/api/views.py:125-130 | an absent or empty image is kept; a present one becomes a URL that starts with "http" and ends with the stored path; a path that is already a URL is kept |
| Ledger.AbsoluteImageIdempotent | backend/api/views.py:128-130 | rewriting an already rewritten image changes nothing |
| Ledger.LoginUser | backend/api/views.py:86-108 | 400 exactly when a field is missing or empty; 401 exactly when both are given and authentication fails; otherwise success with the authenticated user's token, id and username |
| Ledger.SetQuantityKeepsValid | backend/api/views.py:228-231 | storing a non-negative quantity in a line keeps the database valid |
| Ledger.AddLineKeepsValid | backend/api/views.py:195-199 | a new line with the next id, for a pair not in the cart, keeps the database valid |
| Ledger.RemoveLineKeepsValid | backend/api/views.py:239-241 | deleting a line keeps the database valid |
| Ledger.AddFoodKeepsValid | backend/api/management/commands/create_sample_foods.py:59-62 | inserting a food with the next id and a fitting price keeps the database valid |
| Ledger.PlaceOrderKeepsValid | backend/api/views.py:269-286 | the order row, its order lines and the cleared cart together keep the database valid |
| Ledger.Database.CartAdd | backend/api/views.py:183-207 | an absent or unknown food id: 404 and nothing changes. An existing line gains the requested quantity (default 1), answering 200. Otherwise one new line is created with that quantity, answering 201. 201 exactly when the cart grew by a line. A negative stored quantity is refused with 500. No other table changes |
| Ledger.Database.CartUpdate | backend/api/views.py:218-245 | a line that is not the requester's: 404 and nothing changes. PUT with a truthy positive quantity sets it (200), otherwise 400 and no change. DELETE removes exactly that line (204) |
| Ledger.Database.CreateOrder | backend/api/views.py:256-300 | an empty cart: 400 and no order. Otherwise one order whose total is the sum of price × quantity, one order line per cart line, that user's cart emptied and other users' lines kept (201). A total that does not fit: 500 and nothing written, as Django before 5.0 behaves. The database stays valid |
| Ledger.Database.PlaceOrder | backend/api/views.py:266-286 | the writes of a checkout: the order appended, its lines appended with consecutive ids, and only that user's lines removed |
| Ledger.Database.FoodList | backend/api/views.py:119-132 | the response is the food table newest first, each row's image rewritten to an absolute URL |
| Ledger.AbsoluteImages | backend/api/views.py:124-130 | the in-place loop rewrites every row's image, and only the image |
| SampleFoods.SamplesDistinct | backend/api/management/commands/create_sample_foods.py:14-55 | the command's list has eight dishes with distinct names |
| SampleFoods.SamplesFit | backend/api/management/commands/create_sample_foods.py:14-55 | every listed price fits the price column |
| SampleFoods.NameCount | backend/api/management/commands/create_sample_foods.py:59-62 | the number of rows carrying a name is zero exactly when no row carries it |
| SampleFoods.SeedRun | backend/api/management/commands/create_sample_foods.py:57-65 | existing rows are never modified (the old table is a prefix of the new one); the table and the id counter grow by exactly the created count |
| SampleFoods.SeedRunFails | backend/api/management/commands/create_sample_foods.py:58-62 | the run raises exactly when some dish's name is carried by two or more rows |
| SampleFoods.SeedRunInsertsMissing | backend/api/management/commands/create_sample_foods.py:58-64 | the run appends, in list order and with consecutive ids, exactly the dishes before the stopping point whose name no row carried |
| SampleFoods.SeedRunLeavesOneEach | backend/api/management/commands/create_sample_foods.py:58-62 | after a run that did not raise, every dish's name is carried by exactly one row |
| SampleFoods.SeedRunNoOp | backend/api/management/commands/create_sample_foods.py:58-67 | when every dish is present once, a run creates nothing and changes nothing |
| SampleFoods.SecondRunCreatesNothing | backend/api/management/commands/create_sample_foods.py:58-69 | running the command again after a completed run creates 0 items |
| SampleFoods.FreshRunInsertsAll | backend/api/management/commands/create_sample_foods.py:57-64 | when no dish is in the table yet, the run inserts every dish in list order with consecutive ids, creates as many rows as dishes and does not raise |
| SampleFoods.RowsLastNewest | backend/api/management/commands/create_sample_foods.py:59-62 | under a clock that moves forward, the last inserted row is strictly newer than every other inserted row |
| SampleFoods.FreshSeedListsLastFirst | backend/api/management/commands/create_sample_foods.py:57-62 | each insert reads a later time, so after seeding an empty table the newest-first listing starts with the last dish inserted |
| SampleFoods.SeededListingStartsWithLastDish | backend/api/management/commands/create_sample_foods.py:14-62 | after the command seeds an empty table, the food listing starts with the eighth dish, "Chocolate Brownie" |
| SampleFoods.SeedRunKeepsValid | backend/api/management/commands/create_sample_foods.py:59-62 | a run keeps the database valid |
| SampleFoods.Seed | backend/api/management/commands/create_sample_foods.py:57-67 | the loop with its counter computes exactly `SeedRun`: final table, id counter, `created_count`, and whether it completed |
| SampleFoods.SeedDatabase | backend/api/management/commands/create_sample_foods.py:57-67 | seeding changes only the food table and its counter, as `SeedRun` says, and keeps the database valid |
| SampleFoods.Handle | backend/api/management/commands/create_sample_foods.py:12-69 | the command seeds the eight fixed dishes with the effect `SeedRun` describes |
| Auth.Initial | frontend/src/context/AuthContext.jsx:23-25 | the first render reads the token from storage key 'token', has no user and is loading; storage and the axios header are left as they were |
| Auth.Commit | frontend/src/context/AuthContext.jsx:28-37 | the effect runs only for a token it has not run for. A truthy token sets the header to "Token t" and rebuilds the user from the stored username. Any other token removes the header. Loading ends |
| Auth.AfterLogin | frontend/src/context/AuthContext.jsx:40-47 | keys 'token', 'username' and 'userId' hold the arguments and no other key changes; token, user {username, id} and header "Token t" are set |
| Auth.AfterLogout | frontend/src/context/AuthContext.jsx:50-57 | the three keys are removed, no other key changes, and token, user and header are cleared |
| Auth.LoginAuthenticates | frontend/src/context/AuthContext.jsx:40-62 | right after login, and after the commit that follows, the session is authenticated exactly when the token is non-empty |
| Auth.LogoutSignsOut | frontend/src/context/AuthContext.jsx:50-62 | right after logout, and after its commit, the session is not authenticated and has no user and no header |
| Auth.LoginOverwrites | frontend/src/context/AuthContext.jsx:40-47 | login keeps nothing of the previous session: two sessions logged in with the same arguments agree on token, user, header and keys |
| Auth.CommitIdempotent | frontend/src/context/AuthContext.jsx:28-37 | a second commit with nothing new changes nothing |
| Auth.MountHydrates | frontend/src/context/AuthContext.jsx:23-37 | on mount, a truthy stored token sets the header and a user holding the stored username; otherwise there is no header and no user |
| Auth.LoginThenCommit | frontend/src/context/AuthContext.jsx:28-47 | the commit after a login with a new, non-empty token replaces the user by one without an id |
| Auth.ReloadAfterLogin | frontend/src/context/AuthContext.jsx:24-47 | a reload after login is authenticated with the same token, header and username, but no user id |
| Auth.ReloadAfterLogout | frontend/src/context/AuthContext.jsx:24-57 | a reload after logout is signed out |
| Auth.AuthProvider.constructor | frontend/src/context/AuthContext.jsx:21-37 | mounting is the first render followed by its commit |
| Auth.AuthProvider.IsAuthenticated | frontend/src/context/AuthContext.jsx:60-62 | true exactly when the in-memory token is truthy |
| Auth.AuthProvider.Login | frontend/src/context/AuthContext.jsx:40-47 | the provider's new state is `AfterLogin` of the old one |
| Auth.AuthProvider.Logout | frontend/src/context/AuthContext.jsx:50-57 | the provider's new state is `AfterLogout` of the old one |
| Auth.AuthProvider.CommitRender | frontend/src/context/AuthContext.jsx:28-37 | the provider's new state is `Commit` of the old one |
| CartPage.Initial | frontend/src/pages/Cart.jsx:15-17 | an empty cart, loading, no error, nothing sent |
| CartPage.Fetch | frontend/src/pages/Cart.jsx:29-41 | on success the cart is replaced wholesale and the error cleared; on failure the error is set and the cart kept; loading is false either way |
| CartPage.BelowOneRemoves | frontend/src/pages/Cart.jsx:44-48 | a quantity below one sends a delete and never an update |
| CartPage.SuccessRefetches | frontend/src/pages/Cart.jsx:50-63 | a successful update or delete is followed by exactly one cart request, whose data replaces the cart |
| CartPage.FailureKeepsCart | frontend/src/pages/Cart.jsx:53-67 | a failed update or delete sets its error, keeps the cart, and sends no cart request |
| CartPage.EmptyCartNoOrder | frontend/src/pages/Cart.jsx:72-75 | checkout on an empty cart sets 'Your cart is empty!' and sends no order request |
| CartPage.FailedOrderStays | frontend/src/pages/Cart.jsx:77-83 | a failed order sets the error, does not navigate and keeps the cart |
| CartPage.SignedOutRedirects | frontend/src/pages/Cart.jsx:20-26 | a signed-out visitor is sent to /login and the cart is never requested |
| CartPage.ButtonsStepByOne | frontend/src/pages/Cart.jsx:149-156 | the − and + buttons request exactly quantity − 1 and quantity + 1 for that line |
| CartPage.FetchedTotalConsistent | frontend/src/pages/Cart.jsx:32-33 | a cart fetched from the cart view shows a total equal to the sum of price × quantity over its lines and to the user's cart total |
| CartPage.CartScreen.FetchCart | frontend/src/pages/Cart.jsx:29-41 | the page's new state is `Fetch` of the old one |
| CartPage.CartScreen.HandleRemoveItem | frontend/src/pages/Cart.jsx:60-68 | the page's new state is `Remove` of the old one |
| CartPage.CartScreen.HandleUpdateQuantity | frontend/src/pages/Cart.jsx:44-57 | the page's new state is `Update` of the old one |
| CartPage.CartScreen.HandlePlaceOrder | frontend/src/pages/Cart.jsx:71-84 | the page's new state is `PlaceOrder` of the old one |
| CartPage.CartScreen.OnMount | frontend/src/pages/Cart.jsx:20-26 | the page's new state is `Mount` of the old one |
| FoodDetails.ParseIntRoundTrip | frontend/src/pages/FoodDetails.jsx:31 | `parseInt` reads back a decimal id, whatever non-digit text follows it |
| FoodDetails.ParseIntNaN | frontend/src/pages/FoodDetails.jsx:31 | text that does not start with a digit, space or sign is NaN |
| FoodDetails.Lookup | frontend/src/pages/FoodDetails.jsx:31 | a found food is the first food in the listing with the target id, as `find` returns it; nothing is found exactly when no food has it |
| FoodDetails.LookupFindsById | frontend/src/pages/FoodDetails.jsx:31 | with distinct ids, the lookup of a decimal id finds the food with that id |
| FoodDetails.Initial | frontend/src/pages/FoodDetails.jsx:16-19 | no food, loading, quantity 1, no message |
| FoodDetails.Fetch | frontend/src/pages/FoodDetails.jsx:26-43 | either the first food with the parsed id is shown (the one `Lookup` finds), or no food has that id and 'Food item not found' is shown with the food unchanged. A failed request shows 'Failed to load food details'. Loading is false afterwards |
| FoodDetails.LinkShowsFood | frontend/src/pages/FoodDetails.jsx:22-36 | opening the page of food n shows exactly that food |
| FoodDetails.AddToCartStep | frontend/src/pages/FoodDetails.jsx:46-63 | signed out: go to /login and send nothing. Otherwise send the food and quantity, and show the success message when the request succeeded and the failure message when it failed. With no food loaded, send nothing and show the failure message |
| FoodDetails.Increase | frontend/src/pages/FoodDetails.jsx:66-68 | adds exactly 1 and changes nothing else |
| FoodDetails.Decrease | frontend/src/pages/FoodDetails.jsx:71-73 | one less, never below 1, a no-op at 1, nothing else changed |
| FoodDetails.QuantityStaysPositive | frontend/src/pages/FoodDetails.jsx:18-73 | every handler keeps the quantity at least 1 |
| FoodDetails.DecreaseThenIncrease | frontend/src/pages/FoodDetails.jsx:66-73 | above 1, − then + returns to the same state |
| FoodDetails.DetailsScreen.constructor | frontend/src/pages/FoodDetails.jsx:11-19 | the component starts in `Initial` for its URL id |
| FoodDetails.DetailsScreen.FetchFoodDetails | frontend/src/pages/FoodDetails.jsx:26-43 | the page's new state is `Fetch` of the old one |
| FoodDetails.DetailsScreen.HandleAddToCart | frontend/src/pages/FoodDetails.jsx:46-63 | the page's new state is `AddToCartStep` of the old one |
| FoodDetails.DetailsScreen.IncreaseQuantity | frontend/src/pages/FoodDetails.jsx:66-68 | the page's new state is `Increase` of the old one |
| FoodDetails.DetailsScreen.DecreaseQuantity | frontend/src/pages/FoodDetails.jsx:71-73 | the page's new state is `Decrease` of the old one |
| LoginPage.StatusMessage | frontend/src/pages/Login.jsx:62 | the message starts with 'Login failed (' and ends with '). Please check your credentials.', and what lies between them is exactly the status in decimal |
| LoginPage.ErrorMessage | frontend/src/pages/Login.jsx:58-70 | with a reply: its error, else its detail, else the status message. With only a request: the connection message. Otherwise the error's message, else the default |
| LoginPage.ErrorMessageShown | frontend/src/pages/Login.jsx:58-70 | whatever went wrong, the message shown is non-empty |
| LoginPage.Initial | frontend/src/pages/Login.jsx:14-19 | both fields empty, no error, not loading |
| LoginPage.Change | frontend/src/pages/Login.jsx:22-28 | only the named field changes, to the typed value, and the error is cleared |
| LoginPage.Submit | frontend/src/pages/Login.jsx:31-73 | login and navigation to / happen only for a reply with a truthy token and username. Any other reply shows 'Invalid response…'. A rejection shows its classified message. Loading is false afterwards and the form is kept |
| LoginPage.SubmitErrorIffNotSignedIn | frontend/src/pages/Login.jsx:42-70 | a submit leaves an error exactly when it did not sign in |
| LoginPage.BackendRepliesUnderstood | frontend/src/pages/Login.jsx:42-63 | the backend's success reply signs in as the authenticated user with its id; its refusal shows the backend's error text |
| LoginPage.LoginScreen.HandleChange | frontend/src/pages/Login.jsx:22-28 | the page's new state is `Change` of the old one |
| LoginPage.LoginScreen.HandleSubmit | frontend/src/pages/Login.jsx:31-73 | the page's new state, session included, is `Submit` of the old one |
| FoodCard.PickFirst | frontend/src/components/FoodCard.jsx:31-37 | the first keyword of the priority list that the name contains decides the image |
| FoodCard.PickNone | frontend/src/components/FoodCard.jsx:38 | a name with none of the keywords gets the default image |
| FoodCard.PlaceholderFirstMatch | frontend/src/components/FoodCard.jsx:30-38 | the chain of tests is the lookup in the priority list pizza, salad, burger, wing, pasta, fish, brownie |
| FoodCard.PlaceholderIgnoresCase | frontend/src/components/FoodCard.jsx:30 | names equal up to case get the same image, and a name gets the same image as its lower-cased form |
| FoodCard.ChickenWingsGetWings | frontend/src/components/FoodCard.jsx:30-34 | "Chicken Wings" maps to the wings image |
| FoodCard.PizzaWins | frontend/src/components/FoodCard.jsx:30-31 | a name mentioning "Pizza" anywhere gets the pizza image, whatever else it mentions |
| FoodCard.ImageUrlAsWritten | frontend/src/components/FoodCard.jsx:15-42 | with no truthy path or after an image error, the placeholder for the name. Otherwise the component throws exactly when the path resolves to nothing |
| FoodCard.UnresolvedPathThrows | frontend/src/components/FoodCard.jsx:41 | a food with a path the helper does not resolve makes the card throw |
| FoodCard.ImageUrl | frontend/src/components/FoodCard.jsx:15-42 | the image is never empty. It is the placeholder in the fallback case and the resolved path when there is one. It is always a table entry or the resolved path |
| FoodCard.ImageUrlAgrees | frontend/src/components/FoodCard.jsx:15-42 | the corrected expression agrees with the original wherever the original shows an image, and shows the default where it throws |

## Left out

- HTTP and axios plumbing (`frontend/src/api/api.js`): each request's outcome is a parameter of the step that awaits it. The image helper `getImageUrl` is not part of this model; what it returns is the parameter `resolved`.
- Authentication and permissions: `authenticate()` and password hashing are a parameter of `LoginUser`. The requesting user of an authenticated view is a user id parameter.
- The clock (`auto_now_add`) is a parameter. A view that saves one row takes the time as `now`. The seeding command takes a `clock` read at every insert, `clock(id)` for the row with that id, because each save reads the time afresh.
- Floating point: `float(total)` in `cart_view`, `toFixed(2)` on the pages and the float prices of the seeding command. Money is exact integer cents.
- Async timing:
  - the un-awaited `fetchCart()` after a mutation;
  - the three-second `setTimeout` that clears the food-details message;
  - overlapping requests.
  Each handler is one step with its request already settled.
- The 500 branches of `cart_view` and `food_list` (`except Exception`): nothing in those views can raise on a valid database, so they are not modelled.
- Ledger.Database.CreateOrder: the 500 branch for a total that does not fit `total_price` assumes Django before 5.0. There, saving the order rejects the value and nothing is written. No Django version is pinned in the repository. From Django 5.0 the value reaches SQLite and is stored. The order lines are then written and the cart cleared with no transaction, and the 500 comes only afterwards from the serializer. That path is not modelled.
- Ledger.Database.CartAdd: quantities are unbounded integers. SQLite stores 64-bit integers, so a merge that takes a quantity past 2^63 − 1 raises an overflow error and the view answers 500. That bound is not modelled. The same holds for `Ledger.Database.CartUpdate` and a PUT of such a quantity.
- Row order of unordered queries: `CartItem` declares no ordering, so `filter(user=…)` in `cart_view` and `create_order` returns rows in whatever order the database gives. The model fixes that order to table (insertion) order. The order of the cart response and of the copied order lines is therefore the model's choice.
- JSON values of the wrong type (a string quantity, a non-string `error`): request and reply fields are integers or strings, or absent.
- `LoginPage.Submit`: `response.user_id` is taken to be present, as the backend always sends it. `String(undefined)` being stored under 'userId' when it is missing is not modelled.
- `FoodCard.Placeholder`: `toLowerCase` is modelled on ASCII letters only.
- `FoodDetails.ParseIntRoundTrip`: `parseInt` is modelled for ASCII whitespace, an optional sign, and decimal or `0x` hexadecimal digits. Unicode whitespace and the loss of precision above 2^53 are not modelled.
- `FoodDetails.Fetch`: the page keeps `parseInt` of its URL id rather than the id text. The id is fixed for the life of the page, so every fetch parses the same value. A change of id is a new page (`DetailsScreen.constructor`).
- Console and stdout logging, the rendered markup, and the loading spinners.
- The other cascades (deleting a user or an order) and the `__str__` methods: no core operation deletes users or orders.
- `create_superuser.py`, `create_render_superuser.py`, `add_sample_images.py`, `serializers.py`, `middleware.py`, `admin.py`, `settings.py`, the URL configuration, and the pages Home, OrderSuccess, Navbar and Footer are not part of this model.

## Findings

| source | as written | input that shows it | evidently intended | confidence | as-written member | corrected member |
|---|---|---|---|---|---|---|
| frontend/src/components/FoodCard.jsx:41 | `getImageUrl(imagePath) \|\| foodImages.default` reads `foodImages`, which is a `const` declared inside the `if` block above it, so the read throws a ReferenceError | a food with image path "foods/pizza.jpg" that the helper resolves to a falsy value (`FoodCard.UnresolvedPathThrows`) | fall back to the default placeholder image | not executed; needs the helper to return a falsy value for a truthy path | FoodCard.ImageUrlAsWritten | FoodCard.ImageUrl |
