# Reader's Paradise client core in Dafny

This project models the state-handling core of the Reader's Paradise
book-rental mobile client:

- the category catalog screen: the filter and sort settings, the search and
  browse requests they produce, how each response page is merged into the
  list, the error resets, the infinite-scroll guard, the wishlist, and the
  client-side search that filters the loaded books and ranks title matches first;
- the four-step registration wizard: per-step validation with its exact
  messages, the step counter and the trimmed registration body;
- the cart and orders screen: the price totals, the paged order list, removing
  a book from an order, the borrowed-books list and the status colours;
- the home screen's three independently paged carousels and its like toggle;
- the authentication slice with its `loginSuccess` and `logout` reducers.

Each screen whose state the source updates in place is a class
(`CategoryBooks.CategoryScreen`, `Registration.Wizard`, `Cart.CartScreen`,
`Home.HomeScreen`, `Auth.AuthSlice`). Each asynchronous handler, together with
the server response it awaits, is one method. The response is a parameter of
type `Outcome` (`Succeeded(response)` or `Failed`), and the query the handler
sends is returned as a `Params` map, so an omitted key is a key absent from
the map. The list logic that only computes values (filtering, ranking, removal, the
reducer) is written as functions and lemmas. The two loops of the cart screen,
the price totals and the borrowed-books list, are methods with loop invariants,
proved against the book count and `Entries(Filter(Flatten(orders), IsBorrowed))`.
Each class method is specified against those functions.

The registration error map stores each message as a value of the enumeration
`Registration.Message`. `Registration.MessageText` gives each message's exact wording.

Modules: `Wrappers` (Option, Outcome), `Seqs` (order-preserving filter),
`Text` (JavaScript `trim`, `toLowerCase`, `includes`), `Api` (books, pages and
request parameters), `BookSearch`, `CategoryBooks`, `Registration`, `Cart`,
`Home` and `Auth`.

Three behaviours of the code are kept as written, although a reader might
expect otherwise:
- Appending a page of books does not remove duplicate ids
  (src/screens/Category_wise_Books.js:149 and :192).
- The infinite-scroll handler moves `currentPage` forward before the fetch.
  It never moves it back when that fetch fails (src/screens/Category_wise_Books.js:632-636).
- `/api/v1/Books` requests carry the screen's `pageSize` of 1, while the
  search endpoint uses a literal 20 (src/screens/Category_wise_Books.js:53, :131).

Two parts of the catalog screen are never reached from the code as written,
and the model keeps them only for completeness:
- The `!loadingMore` test in the end-reached handler (line 632) is no lock
  against an in-flight request. Only an appending `fetchBooks` sets
  `loadingMore`, and no call site appends. `fetchFilteredBooks`, which the
  handler calls, never sets it.
- `handleRefresh` (lines 164-168) has no caller. Pull-to-refresh calls
  `fetchBooks` instead (lines 625-628).

## Model

| member | source | states |
|---|---|---|
| Text.Trim | src/screens/RegistrationForm.js:60-106 | `trim` leaves no white space at either end; the result is empty exactly when the input is blank, which is what `!s.trim()` tests |
| Text.TrimStartDropsLeadingSpace | src/screens/RegistrationForm.js:130-144 | the start of `trim` removes only white space, all of the leading white space, and keeps the rest in order |
| Text.TrimEndDropsTrailingSpace | src/screens/RegistrationForm.js:130-144 | the end of `trim` removes only white space, all of the trailing white space, and keeps the rest in order |
| Text.TrimIdempotent | src/screens/RegistrationForm.js:130-144 | trimming a trimmed value changes nothing |
| Text.ToLower | src/screens/Category_wise_Books.js:243-250 | lower-casing keeps the length, maps each ASCII capital to the same letter in lower case and keeps every other character |
| Text.ToLowerIdempotent | src/screens/ShippingCart.js:230-231 | lower-casing twice equals lower-casing once |
| Api.OrOne | src/screens/Category_wise_Books.js:152 | `totalPages \|\| 1` keeps any non-zero server value and gives 1 when the value is missing or 0 |
| BookSearch.FilteredBooks | src/screens/Category_wise_Books.js:242-251 | every kept book matches the query by title, author or ISBN, no matching book is dropped, and the kept books are taken from the server list without inventing or duplicating any |
| BookSearch.SortedIsTitlePartition | src/screens/Category_wise_Books.js:254-259 | the stable sort under the title-flag comparator equals the title matches in input order followed by the other books in input order |
| BookSearch.TitleMatchesComeFirst | src/screens/Category_wise_Books.js:254-259 | in the ranked list no title match follows a book without a title match |
| BookSearch.RankingIsStable | src/screens/Category_wise_Books.js:254-259 | within each group (title matches, the rest) the relative order is that of the input |
| BookSearch.SortedIsPermutation | src/screens/Category_wise_Books.js:254-259 | ranking neither loses, invents nor duplicates a book |
| BookSearch.DisplayShowsExactlyTheMatches | src/screens/Category_wise_Books.js:242-262 | an empty query shows the server list unchanged; otherwise the shown books are exactly the matching ones |
| BookSearch.DisplayIsTitleThenOtherMatches | src/screens/Category_wise_Books.js:242-262 | with a query, the screen shows the title matches in server order followed by the author-or-ISBN-only matches in server order |
| BookSearch.DisplayIsPermutationOfMatches | src/screens/Category_wise_Books.js:242-262 | with a query, the displayed list is a rearrangement of the filtered list |
| CategoryBooks.Flipped | src/screens/Category_wise_Books.js:97-99 | exactly the named filter flag flips; the others and the sort settings are kept |
| CategoryBooks.FlipTwice | src/screens/Category_wise_Books.js:97-99 | toggling the same filter twice restores the filters |
| CategoryBooks.SortToggled | src/screens/Category_wise_Books.js:106-112 | the sort order changes, the sort key becomes "title", the filter flags are kept |
| CategoryBooks.SortToggleTwice | src/screens/Category_wise_Books.js:106-112 | two sort toggles restore the order, and the whole filter object when it already sorts by title |
| CategoryBooks.SearchParamsShape | src/screens/Category_wise_Books.js:121-137 | the search request carries the eight fixed keys with page size 20; `availableOnly` is present only when that filter is on, and is then true |
| CategoryBooks.AvailableOnlyAddsOneKey | src/screens/Category_wise_Books.js:135-137 | switching `availableOnly` on adds that one key and changes nothing else in the request |
| CategoryBooks.BrowseParamsShape | src/screens/Category_wise_Books.js:178-186 | the browse request carries page, the page size 1, the search text and the category |
| CategoryBooks.QuickSearchParamsShape | src/screens/Category_wise_Books.js:291-295 | the quick search sends the query as title, author and ISBN and nothing else |
| CategoryBooks.Toggled | src/screens/Category_wise_Books.js:329-337 | exactly the given id changes wishlist membership |
| CategoryBooks.ToggleTwice | src/screens/Category_wise_Books.js:329-337 | toggling an id twice restores the wishlist |
| CategoryBooks.CategoryScreen.constructor | src/screens/Category_wise_Books.js:27-47 | the initial state: empty list and wishlist, page 1 of 1, default filters |
| CategoryBooks.CategoryScreen.FetchFilteredBooks | src/screens/Category_wise_Books.js:121-162 | sends `SearchParams`; page 1 replaces the list and other pages append without dedup; `totalPages` falls back to 1; a failure keeps list and pages; all loading flags end false |
| CategoryBooks.CategoryScreen.FetchBooks | src/screens/Category_wise_Books.js:173-228 | sends `BrowseParams`; success replaces or appends and takes counts with fallbacks and the any-available flag; a failed replacing fetch empties the list and resets the counts, a failed append keeps them |
| CategoryBooks.CategoryScreen.ChangeSearchQuery | src/screens/Category_wise_Books.js:230-239 | typing the text already held changes nothing; a new text is stored; without a token nothing else changes; with a token page 1 is reloaded through the browse endpoint, and the list, counts, any-available flag and loading flags end as after a replacing `FetchBooks` |
| CategoryBooks.CategoryScreen.HandleSearch | src/screens/Category_wise_Books.js:281-326 | a blank query changes nothing and sends nothing; otherwise page 1 of the quick search replaces the list, and a failure empties it and resets the counts |
| CategoryBooks.CategoryScreen.HandleFilterToggle | src/screens/Category_wise_Books.js:97-104 | flips one filter, returns to page 1 and fetches page 1 with the new settings: success replaces the list and takes `totalPages` with its fallback, failure keeps list and pages; `totalCount` and the any-available flag are kept and every loading flag ends false |
| CategoryBooks.CategoryScreen.HandleSortToggle | src/screens/Category_wise_Books.js:106-116 | toggles the sort, returns to page 1 and fetches page 1 with the new settings: success replaces the list and takes `totalPages` with its fallback, failure keeps list and pages; `totalCount` and the any-available flag are kept and every loading flag ends false |
| CategoryBooks.CategoryScreen.HandleRefresh | src/screens/Category_wise_Books.js:164-168 | refetches page 1 with the current filters and query: success replaces the list and takes `totalPages`, failure keeps list and pages; `totalCount` and the any-available flag are kept and every loading flag ends false |
| CategoryBooks.CategoryScreen.PullToRefresh | src/screens/Category_wise_Books.js:625-628 | page 1 through the browse endpoint: success replaces the list and takes both counts and the any-available flag from the response; failure empties the list and resets the counts; every loading flag ends false |
| CategoryBooks.CategoryScreen.OnEndReached | src/screens/Category_wise_Books.js:631-637 | fetches only when `loadingMore` is false and a further page exists; the page then advances by one, never past `totalPages`; success appends and takes `totalPages`, failure keeps list and pages; `totalCount` and the any-available flag are kept and the loading flags end false |
| CategoryBooks.CategoryScreen.ToggleWishlist | src/screens/Category_wise_Books.js:329-337 | the wishlist becomes `Toggled` of the old one |
| Registration.EmailShapeIsPattern | src/screens/RegistrationForm.js:71 | the executable email check holds exactly when the unanchored pattern `\S+@\S+\.\S+` matches somewhere in the input |
| Registration.StepErrorsAreFieldErrors | src/screens/RegistrationForm.js:55-110 | only the current step's fields can carry errors; a field carries one exactly when its rule fails, and then with that rule's message |
| Registration.PasswordChecksByIndex | src/screens/RegistrationForm.js:86 | the three character checks of the password rule mean: every character is an ASCII letter or digit, some character is a letter, some character is a digit |
| Registration.PersonalErrors | src/screens/RegistrationForm.js:59-79 | the step-0 checks, run in the screen's order, build exactly `StepErrors(0, f)` |
| Registration.CheckPassword | src/screens/RegistrationForm.js:82-91 | the password check records "required" for a blank password, the weak-password message when the trimmed password fails the rule, and nothing otherwise |
| Registration.CheckConfirmation | src/screens/RegistrationForm.js:92-98 | the confirmation check records "required" for a blank confirmation, the mismatch message when it differs from the untrimmed password, and nothing otherwise |
| Registration.PasswordErrors | src/screens/RegistrationForm.js:81-99 | the two step-1 checks together build exactly `StepErrors(1, f)` |
| Registration.AddressErrors | src/screens/RegistrationForm.js:101-106 | the step-2 check builds exactly `StepErrors(2, f)` |
| Registration.ValidIffNoErrors | src/screens/RegistrationForm.js:55-110 | a step validates exactly when it records no error |
| Registration.RequestBody | src/screens/RegistrationForm.js:130-144 | the body has subscription type 0 and carries each form field, trimmed, under its own name (`zip` as `zipCode`) |
| Registration.PasswordStepFixesSentPasswords | src/screens/RegistrationForm.js:81-98 | after a valid password step the posted password passes the password rule and equals the posted confirmation |
| Registration.Wizard.constructor | src/screens/RegistrationForm.js:21-52 | empty form, step 0, no errors |
| Registration.Wizard.Edit | src/screens/RegistrationForm.js:21-40 | the setters replace the form's fields |
| Registration.Wizard.ValidateStep | src/screens/RegistrationForm.js:55-110 | stores `StepErrors` for the current step and returns whether the step is valid, which is the case exactly when no error was stored |
| Registration.Wizard.NextStep | src/screens/RegistrationForm.js:112-116 | advances by one only when the step validates and is below 3 |
| Registration.Wizard.PrevStep | src/screens/RegistrationForm.js:118-122 | goes back by one unless on step 0 |
| Registration.Wizard.HandleRegistration | src/screens/RegistrationForm.js:124-144 | sends a body exactly when the current step validates, and that body is the trimmed `RequestBody` |
| Cart.Flatten | src/screens/ShippingCart.js:38-43 | the flattened book list has one entry per book line of every order |
| Cart.FlattenMembership | src/screens/ShippingCart.js:276-290 | a book line is in the flattened list exactly when some order holds it |
| Cart.CalculateTotals | src/screens/ShippingCart.js:34-56 | counts every book line, charges 39.5 each, 15% discount, delivery 0 above 100 and 2 otherwise, total is subtotal minus discount plus delivery |
| Cart.FreeDeliveryFromThreeBooks | src/screens/ShippingCart.js:40-46 | delivery is free exactly from the third book on |
| Cart.StatusColor | src/screens/ShippingCart.js:230-237 | green exactly for delivered or returned, orange exactly for pending, grey otherwise, ignoring letter case |
| Cart.StatusColorIgnoresCase | src/screens/ShippingCart.js:230-237 | the colour of a status and of its lower-cased form agree |
| Cart.BorrowedShownGreen | src/screens/ShippingCart.js:276-298 | every book in the borrowed list is shown in green |
| Cart.BorrowedBooks | src/screens/ShippingCart.js:276-290 | the nested loop yields the entries of the delivered or returned books of all orders, in order |
| Cart.BorrowedListIsComplete | src/screens/ShippingCart.js:276-290 | a book is listed exactly when it is delivered or returned and some order holds it |
| Cart.RemoveBook | src/screens/ShippingCart.js:212-222 | the order count and every order's id and declared count are kept; other orders are untouched; the named order keeps exactly its books with another item id, in their order |
| Cart.RemoveBookIdempotent | src/screens/ShippingCart.js:212-222 | removing the same book twice equals removing it once |
| Cart.OrdersParamsShape | src/screens/ShippingCart.js:71-79 | page and page size 60 always; `status` only when it is 1 to 7 |
| Cart.CartScreen.constructor | src/screens/ShippingCart.js:21-27 | empty orders, page 1, more data expected, status 1 |
| Cart.CartScreen.FetchOrders | src/screens/ShippingCart.js:58-172 | ignored while loading unless refreshing; a response with orders replaces (refresh or page 1) or appends, sets `hasMoreData` to a full page and sums the declared book counts; a response without orders ends paging and drops the status filter on page 1; loading and refreshing end false |
| Cart.CartScreen.OnStatusChange | src/screens/ShippingCart.js:174-176 | a refreshing load of page 1: orders with a list replace the orders, set `hasMoreData` to a full page and the declared book count; a response without orders keeps them, ends paging and drops the status; a failure changes none of them; the page is kept and loading ends false |
| Cart.CartScreen.LoadMoreData | src/screens/ShippingCart.js:185-191 | only when idle with more data: the page advances by one; orders with a list are appended, set `hasMoreData` to a full page and add their declared books; a response without orders ends paging; a failure keeps the orders, counts and paging; the status is kept and loading ends false |
| Cart.CartScreen.OnRefresh | src/screens/ShippingCart.js:178-183 | page 1 with paging re-enabled: orders with a list replace the orders and set `hasMoreData` and the book count; a response without orders ends paging and drops the status; a failure keeps orders and count with paging on; loading ends false |
| Cart.CartScreen.ConfirmRemoveBook | src/screens/ShippingCart.js:202-227 | the orders become `RemoveBook` of the old ones |
| Home.CarouselParamsShape | src/screens/Home.js:123-128 | every carousel request asks for 5 available books of the given category and page |
| Home.ToggledLike | src/screens/Home.js:79-84 | exactly the given book's liked state flips; every other entry is kept |
| Home.ToggleLikeTwice | src/screens/Home.js:79-84 | liking twice restores every book's liked state |
| Home.HomeScreen.constructor | src/screens/Home.js:41-63 | every carousel empty on page 1 with more expected, no likes |
| Home.HomeScreen.FetchBooks | src/screens/Home.js:109-160 | nothing without a token; otherwise page 1 replaces and later pages append to the named section only, `hasMore` is set exactly when 5 books came back, and the other sections are untouched |
| Home.HomeScreen.LoadAll | src/screens/Home.js:163-169 | with a token, page 1 of categories 10, 11 and 12: each successful carousel takes its books and sets `hasMore` exactly for a full page of 5, each failed one keeps its books and `hasMore`; every page counter is kept and every loader ends false |
| Home.HomeScreen.HandleEndReached | src/screens/Home.js:172-210 | only when the section has more and is not loading: its page advances by exactly one; success appends its own category's next page and sets `hasMore` for a full page, failure keeps the books with `hasMore` on; its loader ends false; other sections untouched |
| Home.HomeScreen.ToggleLike | src/screens/Home.js:79-84 | the likes become `ToggledLike` of the old ones |
| Auth.Reduce | src/redux/LogInSlice.js:16-29 | login copies token, expiry and user and sets both flags; logout yields the initial state; the two flags always agree |
| Auth.ReplayKeepsFlagsInStep | src/redux/LogInSlice.js:4-29 | from the initial state, after any sequence of actions, the two flags agree and are set exactly when the last action was a login |
| Auth.LogoutIdempotent | src/redux/LogInSlice.js:23-29 | logging out twice equals logging out once |
| Auth.LoginThenLogout | src/redux/LogInSlice.js:16-29 | a login followed by a logout yields the initial state whatever the payload |
| Auth.AuthSlice.constructor | src/redux/LogInSlice.js:4-10 | the slice starts in the initial state |
| Auth.AuthSlice.LoginSuccess | src/redux/LogInSlice.js:16-22 | the fields become `Reduce` of the old state under a login |
| Auth.AuthSlice.Logout | src/redux/LogInSlice.js:23-29 | every field returns to its initial value |

## Left out

- Network calls, headers, time-outs, interceptors, `Alert`, console output and
  navigation are not modelled. Responses enter as `Outcome` parameters and
  requests leave as `Params` maps.
- Concurrency: each handler and the response it awaits form one atomic step.
  Interleavings of overlapping requests are not modelled, nor React's stale
  closures (for example `totalBooks + totalBooksCount` in
  src/screens/ShippingCart.js:111 reads the value from the previous render,
  which the model takes as the current value).
- Text.ToLower maps only the ASCII letters; Unicode case mapping is not modelled.
- An author given as an object with a missing or empty name is not modelled.
  `author.name || author` then falls back to the object itself, and the
  following `.toLowerCase()` throws. `Api.Named("")` is read as the empty
  name instead, so `BookSearch.AuthorMatches` tests `Contains("", q)` there.
- A non-string `title` or `isbn` is not modelled. In JavaScript it would
  throw or be coerced.
- `highlightText` (regular-expression splitting for display), `renderStars`
  and the rating rounding, and the `toFixed(2)` formatting of the totals are
  display-only floating-point formatting. Cart.CalculateTotals returns the
  unformatted real numbers.
- Cart.CartScreen.FetchOrders: the HTTP 400 validation fallback that drops the
  status filter (src/screens/ShippingCart.js:142-150) is not modelled. A failed
  request never changes the status, and the error message text is not modelled.
- The effect that React runs when `status` changes is the separate method
  `OnStatusChange`. The model does not trigger it automatically after
  `FetchOrders` drops the status.
- The categories request and the logout dialog on the home screen
  (src/screens/Home.js:65-106) are UI and network only.
- Registration: the success and error snackbars and the
  error-message selection after a failed post (src/screens/RegistrationForm.js:146-175) are not modelled.
- Auth: `null` and `undefined` payload fields are both `None`. The user object
  is modelled as a string record.
