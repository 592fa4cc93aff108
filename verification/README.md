# Food-ordering client: cart, checkout and session model

A Dafny model of the client-side core of a food-ordering web app, TastyBites:

- **Cart store.** The persisted cart is an ordered list of lines keyed by food id, all from one restaurant. It supports add (merging), update-quantity, remove, clear, total, and "restaurant of the cart".
- **Cart context.** A view derived from the store, which the provider reloads after each of its own successful mutations, and the item count. The different-restaurant toast's "Clear Cart" action writes to the store directly, so it leaves that view stale.
- **Cart and Checkout pages.** Both compute the summary: a delivery fee of 40 and tax of 5% rounded half up. Checkout also validates the delivery details, snapshots the cart into a pending order, and clears the cart only once the order is placed.
- **Food card.** Builds the line it adds to the cart.
- **Authentication provider.** Token, user, admin flag and loading flag. Each transition is driven by the authentication service's answer.
- **Page helpers:**
  - the menu search, grouping by category, and collapsible sections;
  - the restaurant search and rating filter;
  - the order-history tabs, status badge and item preview;
  - the admin order search;
  - the login and registration form checks;
  - the navigation bar's initials and search box.

Every operation is a pure function over immutable values; the cart is a `seq<CartLine>`.

Some of the model is explicit where JavaScript is implicit:
- **Money and ratings.** Money is in whole currency units and ratings are in tenths of a star.
- **Rounding.** `Math.round(t * 0.05)` is written as `(t + 10) / 20`.
- **Truthiness** is spelled out:
  - an empty token counts as no token;
  - an empty category is "Other";
  - an empty status is "pending";
  - an empty `from` goes to "/";
  - a rating filter of 0 means no filter.
- **Whitespace.** `trim` strips exactly the ECMAScript white-space and line-terminator characters.

Modules follow the source layout:
- `CartStore` (src/lib/api.ts)
- `CartContext`
- `Pricing`, `Checkout`, `CartPage`
- `FoodCard`
- `Session` (AuthContext)
- `Menu` (RestaurantDetail)
- `RestaurantList`
- `OrderHistory`
- `AdminOrders`
- `LoginPage`, `RegisterPage`
- `Navbar`, with `Uri` for `encodeURIComponent`

Shared helpers live in:
- `Wrappers`: `Option`.
- `Seqs`: order-preserving filter and the subsequence relation.
- `Text`: trim, ASCII case mapping, substring search, decimal rendering.
- `Render`: how a missing value prints in a template literal versus JSX.
- `Entities` and `Nav`.

`register` (src/contexts/AuthContext.tsx:76-97) stores the new token and user but never calls `setIsAdmin`, while `login` (line 62) and `logout` (line 103) both set the flag. Registering while an administrator is logged in therefore leaves the flag set for the new account. The model follows the code; the row under "## Findings" gives both the as-written and the corrected behaviour.

## Model

| member | source | states |
|---|---|---|
| CartStore.FindIndex | src/lib/api.ts:221 | `findIndex` on food id: none exactly when no line has the id; otherwise the first line carrying it |
| CartStore.GetCartTotal | src/lib/api.ts:258-261 | the total of an empty cart is 0, and it is never negative when prices and quantities are not |
| CartStore.GetCartTotalIsSum | src/lib/api.ts:258-261 | the left fold in `reduce` equals the sum of price times quantity over all lines, split as first line plus the rest |
| CartStore.GetRestaurantInfo | src/lib/api.ts:263-271 | null exactly when the cart is empty; otherwise the first line's restaurant id and name, shared by every line of a single-restaurant cart |
| CartStore.AddItem | src/lib/api.ts:199-231 | accepted iff the cart is empty or its first line is from the item's restaurant. A refusal leaves the cart unchanged. A new food is appended. A known food's line gets the summed quantity in place, with nothing else changed |
| CartStore.AddOtherRestaurantRefused | src/lib/api.ts:203-218 | an item from another restaurant than the first line's is refused and the cart is returned unchanged |
| CartStore.AddPreservesValid | src/lib/api.ts:199-231 | adding a positive quantity keeps one restaurant, unique food ids and positive quantities; an accepted add leaves the food in the cart |
| CartStore.AddTotal | src/lib/api.ts:221-227 | an accepted add raises the total by the new line's value, or by the stored unit price times the added quantity on a merge |
| CartStore.AddTwiceSumsQuantities | src/lib/api.ts:221-227 | adding the same food twice gives one appended line holding the sum of both quantities |
| CartStore.UpdateQuantity | src/lib/api.ts:233-246 | an unknown id changes nothing; a positive quantity replaces only that line's quantity; a non-positive one deletes exactly that line, keeping the others in order |
| CartStore.UpdateNonPositiveRemoves | src/lib/api.ts:237-239 | with unique ids, a non-positive update agrees with `removeItem` and leaves no line for that food |
| CartStore.UpdateCons | src/lib/api.ts:233-246 | deleting a food not on the first line keeps the first line in front of the updated rest |
| CartStore.UpdatePreservesValid | src/lib/api.ts:233-246 | any update keeps one restaurant, unique food ids and positive quantities |
| CartStore.SetQuantityPreservesValid | src/lib/api.ts:241 | setting one line's quantity to a positive value keeps every cart invariant |
| CartStore.RemoveItem | src/lib/api.ts:248-252 | no line of the food remains; the result is a subsequence of the cart that keeps every other line; an absent id changes nothing |
| CartStore.RemovePreservesValid | src/lib/api.ts:248-252 | removing keeps every cart invariant |
| CartStore.RemoveSubseqValid | src/lib/api.ts:250 | every order-preserving subsequence of a valid cart is valid and keeps the first line's restaurant |
| CartStore.ClearCart | src/lib/api.ts:254-256 | the cleared cart is valid, has no restaurant and totals 0 |
| CartStore.ClearThenAdd | src/lib/api.ts:211-214 | the refusal toast's "Clear Cart" action (clear, then add) always yields exactly the one-line cart |
| CartContext.ToastClearCart | src/lib/api.ts:211-214 | the toast's "Clear Cart" action leaves exactly the refused line in the store but does not reload the view, which is out of sync whenever the store changed |
| CartStore.SumQuantitySetAt | src/lib/api.ts:241 | changing one line's quantity changes the sum by that line's price times the quantity difference |
| CartStore.SumMergedAt | src/lib/api.ts:224 | raising one line's quantity by `extra` raises the sum by its price times `extra` |
| CartStore.UniqueIndex | src/lib/api.ts:235 | with unique ids, `findIndex` finds exactly the line that carries the id |
| CartContext.LoadCart | src/contexts/CartContext.tsx:30-35 | the view's items are the store, its total is the store's sum, and its restaurant is null iff the store is empty |
| CartContext.Mount | src/contexts/CartContext.tsx:20-28 | mounting loads the stored cart into the view; an empty store shows the initial empty view |
| CartContext.AddToCart | src/contexts/CartContext.tsx:37-47 | a refused add does not reload and leaves the state unchanged; an accepted one stores the new cart and resynchronises the view |
| CartContext.RemoveFromCart | src/contexts/CartContext.tsx:49-52 | stores the removal, reloads, and the view no longer lists the food |
| CartContext.UpdateQuantity | src/contexts/CartContext.tsx:54-57 | stores the update and reloads, so the view matches the store |
| CartContext.ClearCart | src/contexts/CartContext.tsx:59-62 | after clearing, the view has no items, total 0 and no restaurant |
| CartContext.ItemCount | src/contexts/CartContext.tsx:73 | `itemCount` sums the quantities, which is at least the number of lines when quantities are positive, and 0 for an empty cart |
| CartContext.UnitsAtLeastLines | src/contexts/CartContext.tsx:73 | with positive quantities the unit count is at least the line count |
| CartContext.ItemCountCountsUnits | src/contexts/CartContext.tsx:73 | one line of three units counts as 3 items, not 1 |
| CartContext.OperationsPreserveValid | src/contexts/CartContext.tsx:37-62 | every context operation keeps the store's invariants |
| Pricing.Taxes | src/pages/Checkout.tsx:47 | the tax is 5% of the subtotal rounded to the nearest unit with halves up: `20t - 10 <= subtotal < 20t + 10` |
| Pricing.Summarize | src/pages/Checkout.tsx:46-48 | fee 40, rounded 5% tax, and total = subtotal + 40 + tax |
| Pricing.TwoHundredExample | src/pages/Checkout.tsx:46-48 | a subtotal of 200 gives tax 10 and total 250 |
| Pricing.TaxesMonotone | src/pages/Checkout.tsx:47 | a larger subtotal never has a smaller tax |
| Pricing.HalfRoundsUp | src/pages/Checkout.tsx:47 | exact halves round up (30 gives 2, 10 gives 1) and below-half amounts round down |
| CartPage.HandleCheckout | src/pages/Cart.tsx:16-28 | without a user go to login with return path "/cart"; with one go to "/checkout" |
| CartPage.NoCheckoutWithoutUser | src/pages/Cart.tsx:16-27 | a visitor who is not logged in never reaches checkout from the cart |
| CartPage.CartSummary | src/pages/Cart.tsx:30-32 | fee 40 and total = cart total + 40 + tax, on the store's sum when the view is in sync |
| CartPage.SummaryMatchesCheckout | src/pages/Cart.tsx:30-32 | the cart page's total equals the amount of the order checkout builds from the same view |
| CartPage.Decrement | src/pages/Cart.tsx:108 | the minus button leaves the view in sync with the store |
| CartPage.Increment | src/pages/Cart.tsx:117 | the plus button leaves the view in sync with the store |
| CartPage.MinusOnSingleUnitRemoves | src/pages/Cart.tsx:108 | minus on a one-unit line removes that line entirely |
| CartPage.MinusRemovesOneUnit | src/pages/Cart.tsx:108 | minus on a line of two or more units lowers only that line's quantity, by one, and the total by its unit price |
| CartPage.PlusAddsOneUnit | src/pages/Cart.tsx:117 | plus raises only that line's quantity, by one, and the total by its unit price |
| Checkout.Guard | src/pages/Checkout.tsx:36-44 | no user goes to login with return path "/checkout"; an empty cart or missing restaurant goes to "/cart"; otherwise the page renders |
| Checkout.Snapshot | src/pages/Checkout.tsx:76-81 | one order item per cart line, in order, copying id, quantity, name and price |
| Checkout.BuildOrder | src/pages/Checkout.tsx:73-84 | a pending order without id for the user and the cart's restaurant, with the summary total and the snapshot items |
| Checkout.Submit | src/pages/Checkout.tsx:36-109 | redirects exactly when the guard fires. A blank address is reported before a blank phone. The cart is cleared and the order confirmed only on success; on failure the state is untouched |
| Checkout.PlacedOrderMirrorsStore | src/pages/Checkout.tsx:73-98 | a placed order lists the store's lines in order, takes the first line's restaurant, carries the store total plus fee and tax, and leaves the store empty |
| Checkout.CartClearedOnlyOnSuccess | src/pages/Checkout.tsx:90-109 | without success no order is placed and a failed placement keeps the cart |
| Checkout.WhitespaceFieldsBlock | src/pages/Checkout.tsx:51-67 | a whitespace-only address blocks submission whatever the phone; a whitespace-only phone blocks it once the address is filled |
| FoodCard.IsInCart | src/components/ui/food-card.tsx:26 | true exactly when some cart line has the food's id |
| FoodCard.CardLine | src/components/ui/food-card.tsx:28-38 | quantity 1, the food's id, name, price and image, the card's restaurant; the vegetarian flag is not copied |
| FoodCard.ClickAdd | src/components/ui/food-card.tsx:84-85 | the disabled button does nothing while the food is in the cart |
| FoodCard.CardAddNeverMerges | src/components/ui/food-card.tsx:26-38 | with the view in sync with the store, a card add either leaves the store as it was or appends the new line; it is unchanged exactly when the food is present or the cart is from another restaurant |
| FoodCard.StaleViewAfterToastMerges | src/components/ui/food-card.tsx:26-38 | after a refused card click and the toast's "Clear Cart", the view still shows the old cart, so the card stays enabled and a second click merges the food into two units |
| FoodCard.CardAddPreservesValid | src/components/ui/food-card.tsx:28-38 | a card add keeps the store's invariants |
| Session.LoadUserData | src/contexts/AuthContext.tsx:40-55 | success sets the user and derives the admin flag (id below 5); failure drops the token; loading ends either way |
| Session.Restore | src/contexts/AuthContext.tsx:30-38 | no (or an empty) token means no fetch and no user. A token whose fetch fails is dropped and no user is set. Otherwise the fetched user is set with its admin flag. Loading always ends |
| Session.Login | src/contexts/AuthContext.tsx:57-74 | success stores the token and user and sets the admin flag from the id; failure answers false and changes nothing |
| Session.Register | src/contexts/AuthContext.tsx:76-98 | success stores token and user; the admin flag is never modified; failure answers false and changes nothing |
| Session.Logout | src/contexts/AuthContext.tsx:100-109 | the token and user are gone and the admin flag is cleared |
| Session.UpdateProfile | src/contexts/AuthContext.tsx:111-125 | success replaces only the user; failure answers false and changes nothing |
| Session.TransitionsKeepConsistent | src/contexts/AuthContext.tsx:30-125 | restore, login, register, logout and a logged-in profile update keep "admin implies user implies token" |
| Session.FailedLoginStoresNoToken | src/contexts/AuthContext.tsx:70-73 | a failed login from a logged-out state stores no token |
| Session.RegisterKeepsStaleAdminFlag | src/contexts/AuthContext.tsx:84-86 | registering a non-admin id while an admin is logged in leaves the admin flag set, so the flag no longer belongs to the user |
| Session.RegisterCorrected | src/contexts/AuthContext.tsx:84-86 | the corrected `register`: on success it stores token and user and derives the admin flag from the new user's id, as `login` does; failure changes nothing |
| Session.CorrectedTransitionsKeepAdminAgreement | src/contexts/AuthContext.tsx:30-125 | with the corrected `register`, restore establishes and login, register, logout and a same-account profile update keep "the admin flag is the one derived from the current user's id" |
| LoginPage.Destination | src/pages/Login.tsx:16 | a non-empty return path is used as given, and the destination is never empty |
| LoginPage.HandleSubmit | src/pages/Login.tsx:24-54 | a blank email or password is reported and login is not called. Success navigates to the return path. A false answer reports invalid credentials. A thrown error's message is shown |
| LoginPage.DefaultDestinationIsHome | src/pages/Login.tsx:16 | with no return path, a successful login goes to "/" |
| LoginPage.WhitespaceFieldBlocks | src/pages/Login.tsx:28-31 | a whitespace-only email or password blocks login with the "enter both" message |
| RegisterPage.Validate | src/pages/Register.tsx:38-66 | reports a failing check, and reports none exactly when every check passes |
| RegisterPage.ValidateReportsFirstFailure | src/pages/Register.tsx:38-66 | the reported check is the first failing one in the order name, email, password, match, phone, address |
| RegisterPage.AllPassIffNoFailure | src/pages/Register.tsx:38-66 | the six checks all pass exactly when no check fails |
| RegisterPage.HandleSubmit | src/pages/Register.tsx:33-90 | register is called only when validation passes, with the untrimmed fields and no confirmation. Navigation to "/" happens only on success. A throw shows the generic error |
| RegisterPage.MessagesDistinct | src/pages/Register.tsx:39-64 | different failed checks show different messages |
| RegisterPage.WhitespaceNameReportedFirst | src/pages/Register.tsx:38-41 | a whitespace-only name is reported before anything else |
| RegisterPage.ConfirmationComparedExactly | src/pages/Register.tsx:53-56 | a confirmation differing only by a trailing space is a mismatch |
| RegisterPage.MismatchNeedsPassword | src/pages/Register.tsx:48-56 | a mismatch is reported only after name, email and password are non-blank, and only when the two differ |
| Menu.FilterFoods | src/pages/RestaurantDetail.tsx:116-119 | an order-preserving subsequence that keeps every copy of each food whose name or non-empty description contains the term, ignoring case, and nothing else; the empty term keeps all |
| Menu.EmptyTermKeepsAll | src/pages/RestaurantDetail.tsx:116-119 | the empty search term keeps every food |
| Menu.FindCategory | src/pages/RestaurantDetail.tsx:124 | `find` by name: none exactly when no section has the name, otherwise a section that does |
| Menu.GroupingMatchesSections | src/pages/RestaurantDetail.tsx:122-133 | the reduce yields one section per distinct category in first-occurrence order, each holding exactly that category's foods in order |
| Menu.NamesFacts | src/pages/RestaurantDetail.tsx:122-133 | section names are distinct and are exactly the categories that occur |
| Menu.GroupingPartitions | src/pages/RestaurantDetail.tsx:122-133 | names are distinct; each section is non-empty and is the ordered list of its category's foods; every food lies in the section of its category |
| Menu.SectionsNonEmptyInOrder | src/pages/RestaurantDetail.tsx:122-133 | every section is non-empty and keeps menu order |
| Menu.EveryFoodHasItsSection | src/pages/RestaurantDetail.tsx:122-133 | every food appears in the section named after its category |
| Menu.InCategorySnoc | src/pages/RestaurantDetail.tsx:126-130 | appending a food extends exactly its own category's list |
| Menu.InCategoryAbsent | src/pages/RestaurantDetail.tsx:128-130 | a category that has not occurred has no foods yet |
| Menu.PlaceIntoExisting | src/pages/RestaurantDetail.tsx:126-127 | a food of an open category joins that section at its end |
| Menu.PlaceIntoNew | src/pages/RestaurantDetail.tsx:128-130 | a food of a new category opens a section at the end |
| Menu.FirstOf | src/pages/RestaurantDetail.tsx:124 | position of the first food of a category, or the length when there is none |
| Menu.SectionsInFirstOccurrenceOrder | src/pages/RestaurantDetail.tsx:122-133 | earlier section names first occur earlier in the menu |
| Menu.GroupsInFirstOccurrenceOrder | src/pages/RestaurantDetail.tsx:122-133 | the page shows its sections in first-occurrence order of their categories |
| Menu.GroupingKeepsEveryFood | src/pages/RestaurantDetail.tsx:122-133 | the sections together hold as many foods as the filtered menu |
| Menu.TotalGrowsAt | src/pages/RestaurantDetail.tsx:127 | pushing into one section adds one to the food count |
| Menu.TotalGrowsAtEnd | src/pages/RestaurantDetail.tsx:129 | opening a section adds its foods to the count |
| Menu.UncategorizedGoesToOther | src/pages/RestaurantDetail.tsx:123 | a food without a category appears in the "Other" section |
| Menu.PageShowsExactlyMatches | src/pages/RestaurantDetail.tsx:113-133 | the sample menu is used only when nothing was fetched; every food in a section is a matching food of the current menu under its own category, and every matching food appears in its section (how often: Menu.PageSectionCounts) |
| Menu.PageSectionsSound | src/pages/RestaurantDetail.tsx:116-133 | every food in a section of the page is a matching food of the current menu, under its own category |
| Menu.PageSectionsComplete | src/pages/RestaurantDetail.tsx:116-133 | every matching food of the current menu appears in the section of its category |
| Menu.SectionCounts | src/pages/RestaurantDetail.tsx:122-133 | each section holds every food of its category as many times as the grouped list does, and no other food |
| Menu.PageSectionCounts | src/pages/RestaurantDetail.tsx:113-133 | each section of the page holds each matching food of its category as many times as the current menu lists it, and nothing else |
| Menu.ToggleCategory | src/pages/RestaurantDetail.tsx:135-137 | the active section becomes null when it was `c`, and `c` otherwise |
| Menu.ToggleTwice | src/pages/RestaurantDetail.tsx:135-137 | toggling `c` twice restores the prior value when nothing, or `c`, was active |
| Menu.ToggleTwiceFromOtherSection | src/pages/RestaurantDetail.tsx:135-137 | with another section active, toggling `c` twice collapses to none |
| Menu.ToggleVisibility | src/pages/RestaurantDetail.tsx:135-137 | after toggling `c` its foods are shown; another section is shown exactly when `c` had been active |
| RestaurantList.ToDisplay | src/pages/Restaurants.tsx:40 | the fetched list is used exactly when it is non-empty, and the list is never empty |
| RestaurantList.VisibleIsBothFilters | src/pages/Restaurants.tsx:42-49 | an order-preserving subsequence whose members are exactly the restaurants whose name or location contains the term, ignoring case, and whose rating meets the threshold (how often: RestaurantList.VisibleCounts) |
| RestaurantList.VisibleCounts | src/pages/Restaurants.tsx:42-49 | the list keeps every copy of a restaurant passing both filters and no copy of one that fails either |
| RestaurantList.NoFiltersShowsAll | src/pages/Restaurants.tsx:42-49 | an empty term with no (or a zero) threshold lists everything |
| RestaurantList.RaisingThresholdNarrows | src/pages/Restaurants.tsx:47-49 | a higher star threshold lists a subsequence of a lower one's result |
| RestaurantList.ThresholdNarrowsAll | src/pages/Restaurants.tsx:47-49 | any threshold lists a subsequence of "All" |
| RestaurantList.SamplesOnlyWhenNothingFetched | src/pages/Restaurants.tsx:28-49 | the page filters the fetched list, or the eight samples when nothing was fetched |
| OrderHistory.Guard | src/pages/Orders.tsx:44-47 | without a user go to login with return path "/orders"; with one stay |
| OrderHistory.FilterByTab | src/pages/Orders.tsx:106-118 | an order-preserving subsequence holding every copy of each order the tab keeps and nothing else |
| OrderHistory.UnnamedTabListsAll | src/pages/Orders.tsx:106-118 | "all" and any unrecognised tab list every order |
| OrderHistory.NamedTabsDisjoint | src/pages/Orders.tsx:108-116 | active, completed and cancelled share no order, and an order with no known status is in none of them |
| OrderHistory.TabIgnoresCase | src/pages/Orders.tsx:109-115 | statuses differing only in letter case go to the same tabs |
| OrderHistory.NamedTabsCountAtMostAll | src/pages/Orders.tsx:106-118 | the three named tabs together list no more orders than "all" |
| OrderHistory.BadgeLabel | src/pages/Orders.tsx:148 | a non-empty status is shown as given, and a missing or empty one as "pending" |
| OrderHistory.KeyColourAgreesWithTabs | src/pages/Orders.tsx:16-29 | on a lower-cased status: green, blue and amber are the active statuses, purple is delivered, red is cancelled |
| OrderHistory.BadgeAgreesWithTabs | src/pages/Orders.tsx:14-30 | the badge colour, chosen ignoring case with grey as default, agrees with the tab the order is listed under |
| OrderHistory.PendingIsGrey | src/pages/Orders.tsx:148 | the "pending" label falls to the grey default |
| OrderHistory.PreviewOf | src/pages/Orders.tsx:154-164 | at most the first two items are shown, and "+k more" appears with k = n - 2 exactly when n > 2, so shown plus more is n |
| OrderHistory.SeparatorOnlyAfterFirst | src/pages/Orders.tsx:155-158 | only the first of several shown lines carries ", "; a missing food name prints as nothing |
| OrderHistory.CardActions | src/pages/Orders.tsx:171-190 | "Reorder" is offered exactly for delivered orders and leads to "/restaurants/" plus the restaurant id; the details button reads "View Details" for them and "Track Order" otherwise, and leads to "/orders/" plus the order id |
| OrderHistory.ReorderExactlyOnCompletedTab | src/pages/Orders.tsx:171-180 | an order card offers "Reorder" exactly when the Completed tab lists that order, which is exactly when its badge is purple |
| AdminOrders.FilterOrdersAsWritten | src/pages/admin/AdminOrders.tsx:36-43 | no data gives no rows; otherwise an order-preserving subsequence keeping every copy of each order whose template-literal search text contains the query, ignoring case, and nothing else |
| AdminOrders.FilterOrders | src/pages/admin/AdminOrders.tsx:36-43 | the same, with missing fields searched as empty text |
| AdminOrders.EmptyQueryKeepsAll | src/pages/admin/AdminOrders.tsx:39-42 | an empty query lists every order |
| AdminOrders.QueryIgnoresCase | src/pages/admin/AdminOrders.tsx:40-41 | queries differing only in letter case list the same orders |
| AdminOrders.EmptyQueryKeepsAllAsWritten | src/pages/admin/AdminOrders.tsx:39-42 | the search as written also lists every order for an empty query |
| AdminOrders.QueryIgnoresCaseAsWritten | src/pages/admin/AdminOrders.tsx:40-41 | the search as written lists the same orders for queries differing only in letter case |
| AdminOrders.AsWrittenMatchesUndefined | src/pages/admin/AdminOrders.tsx:40 | as written, the query "undefined" matches every order without a restaurant name |
| AdminOrders.MissingNameNotMatched | src/pages/admin/AdminOrders.tsx:40 | with missing fields searched as empty text, such an order does not match "undefined" |
| AdminOrders.IntTextIsNumeric | src/pages/admin/AdminOrders.tsx:40 | an interpolated id consists of digits and at most a minus sign |
| Navbar.Split | src/components/Layout/Navbar.tsx:42 | `split(" ")` gives at least one piece, none containing the separator |
| Navbar.JoinSplit | src/components/Layout/Navbar.tsx:42 | joining the pieces with the separator gives back the name |
| Navbar.FirstChars | src/components/Layout/Navbar.tsx:42 | the first characters of the pieces, at most one per piece |
| Navbar.Initials | src/components/Layout/Navbar.tsx:42 | "G" for a guest; otherwise no longer than the number of space-separated pieces |
| Navbar.FirstCharsAreWordStarts | src/components/Layout/Navbar.tsx:42 | split, take first characters and join yields exactly the word-starting characters of the name |
| Navbar.InitialsAreWordStarts | src/components/Layout/Navbar.tsx:42 | the initials are exactly the upper-cased characters that start a word of the name |
| Navbar.SingleWordInitial | src/components/Layout/Navbar.tsx:42 | a name without spaces gives its upper-cased first character |
| Navbar.HandleSearch | src/components/Layout/Navbar.tsx:28-34 | a blank query does nothing. Otherwise navigate to "/search?q=" plus the encoded untrimmed query, and clear the box |
| Navbar.SearchCarriesUntrimmedQuery | src/components/Layout/Navbar.tsx:30-31 | decoding the query parameter gives back the UTF-8 bytes of the typed text, spaces included |
| Navbar.WhitespaceSearchDoesNothing | src/components/Layout/Navbar.tsx:30 | a whitespace-only query neither navigates nor clears the box |
| Uri.EncodeUriComponent | src/components/Layout/Navbar.tsx:31 | the encoding uses only unreserved characters, `%` and hex digits, and leaves an all-unreserved text unchanged |
| Uri.DecodeEncode | src/components/Layout/Navbar.tsx:31 | percent-decoding the encoding yields the UTF-8 bytes of the original |
| Uri.EncodedHasNoDelimiters | src/components/Layout/Navbar.tsx:31 | the encoded query has no space, `&`, `=`, `#`, `?`, `+` or `/` |

## Left out

- Network and storage are not modelled: `fetchApi`, the endpoint wrappers, `localStorage` and JSON. The cart is the in-memory list the store would persist. Each service call becomes an abstract `Reply` / `accepted` / `LoginCall` input.
- Toasts are left out: the different-restaurant prompt, success and error toasts. The prompt's "Clear Cart" action is covered as clear-then-add.
- Checkout's simulated success (a `setTimeout`) is replaced by the `accepted` input. The commented-out order creation call is not modelled.
- The mock SQL layer in src/lib/db.ts is not part of this model.
- The Profile, OrderConfirmation, Index, AdminDashboard and layout pages are not part of this model. Neither are rendering, routing, loading skeletons or the `isLoading` / `isSubmitting` flags of the pages.
- Checkout pre-fills the address and phone from the user. The model takes them as inputs.
- Floating-point money and ratings, `toFixed` and `toLocaleString` are left out. Money is whole units and ratings are tenths.
- CartStore.AddItem: the quantity is not checked, as in the source. The invariant lemmas take a positive quantity as a hypothesis.
- Text.ToLower: `toLowerCase` / `toUpperCase` map only the ASCII letters, not full Unicode case mapping. `n[0]` in the initials takes a whole character, not a UTF-16 code unit.
- Uri.EncodeUriComponent: characters are Unicode scalar values, so the `URIError` that JavaScript raises for a lone surrogate cannot arise.
- Order fields that none of the modelled code reads are dropped: payment type, payment status, ordered time, delivery details.
- Menu.PageSections and OrderHistory.CurrentOrders take the sample data as a parameter, rather than copying the menu's and order page's literal sample lists. The restaurant page's sample list is included, as RestaurantList.SampleRestaurants.
- OrderHistory.EmptyMessage (the "no orders" text) is modelled without further properties.
- Session.TransitionsKeepConsistent: the profile-update case assumes a logged-in user. A successful update from a logged-out state would set a user without a token; the page only offers the update to logged-in users.
- Session.CorrectedTransitionsKeepAdminAgreement: the profile-update case assumes the service returns the same account id. A reply with another id would keep the old admin flag; `updateProfile` does not re-derive it.
- FoodCard.CardAddNeverMerges: holds only while the view is in sync with the store. After the toast's "Clear Cart" action the view is stale and a card click can merge; FoodCard.StaleViewAfterToastMerges states that case.

## Findings

| source | as written | input that shows it | evidently intended | confidence | as-written member | corrected member |
|---|---|---|---|---|---|---|
| src/pages/admin/AdminOrders.tsx:40 | the search text is a template literal, so a missing `order_id` or `restaurant_name` is searched as the word "undefined" | any order without `restaurant_name`, searched with the query "undefined" (or "und") | missing fields contribute no text to the search | medium; not executed | AdminOrders.AsWrittenMatchesUndefined | AdminOrders.MissingNameNotMatched |
| src/contexts/AuthContext.tsx:84-86 | `register` stores the new token and user but never sets the admin flag, unlike `login` (line 62) and `logout` (line 103) | log in as an administrator (id below 5), then register an account; the service answers with an id of 5 or more, and `isAdmin` stays true | the flag is derived from the new user's id, as after `login` | medium; not executed | Session.RegisterKeepsStaleAdminFlag | Session.CorrectedTransitionsKeepAdminAgreement |
