/** The cart and orders screen (src/screens/ShippingCart.js): the price
    totals, the paged `/Orders/my-orders` list, removing a book from an
    order, the borrowed-books list and the status colours. */
module Cart {
  import opened Wrappers
  import opened Seqs
  import opened Text
  import opened Api

  /** A book line inside an order. */
  datatype CartBook = CartBook(
    itemId: int,
    title: string,
    authors: seq<string>,
    status: string,
    returnDate: Option<string>,
    expectedReturnDate: Option<string>)

  /** An order; `totalBooks` is the count the server declares for it. */
  datatype Order = Order(orderId: int, totalBooks: int, books: seq<CartBook>)

  /** The flat price charged per book. */
  const UnitPrice: real := 39.5
  const DiscountRate: real := 0.15
  /** Delivery is free when the subtotal exceeds this amount. */
  const FreeDeliveryAbove: real := 100.0
  const DeliveryCharge: real := 2.0
  /** The `/Orders/my-orders` page size. */
  const PageSize := 60

  /** The number of book lines over all orders. */
  function BookCount(orders: seq<Order>): nat {
    if orders == [] then 0
    else BookCount(orders[..|orders| - 1]) + |orders[|orders| - 1].books|
  }

  /** Every book line of every order, order by order. */
  function Flatten(orders: seq<Order>): (r: seq<CartBook>)
    ensures |r| == BookCount(orders)
  {
    if orders == [] then []
    else Flatten(orders[..|orders| - 1]) + orders[|orders| - 1].books
  }

  /** A book line belongs to the flattened list exactly when some order holds it. */
  lemma {:induction false} FlattenMembership(orders: seq<Order>, b: CartBook)
    ensures b in Flatten(orders) <==> exists i | 0 <= i < |orders| :: b in orders[i].books
  {
    if orders != [] {
      var init := orders[..|orders| - 1];
      FlattenMembership(init, b);
      assert forall i | 0 <= i < |init| :: init[i] == orders[i];
    }
  }

  /** The values `calculateTotals` returns, before `toFixed(2)` formatting. */
  datatype Totals = Totals(subtotal: real, discount: real, deliveryCharges: real, total: real, booksCount: int)

  /** `calculateTotals`: every book line costs `UnitPrice`; 15% off; delivery
      is free above 100 and costs 2 otherwise. */
  method CalculateTotals(orders: seq<Order>) returns (t: Totals)
    ensures t.booksCount == BookCount(orders)
    ensures t.subtotal == UnitPrice * t.booksCount as real
    ensures t.discount == t.subtotal * DiscountRate
    ensures t.deliveryCharges == if t.subtotal > FreeDeliveryAbove then 0.0 else DeliveryCharge
    ensures t.total == t.subtotal - t.discount + t.deliveryCharges
  {
    var subtotal: real := 0.0;
    var booksCount := 0;
    var i := 0;
    while i < |orders|
      invariant 0 <= i <= |orders|
      invariant booksCount == BookCount(orders[..i])
      invariant subtotal == UnitPrice * booksCount as real
    {
      var books := orders[i].books;
      var j := 0;
      while j < |books|
        invariant 0 <= j <= |books|
        invariant booksCount == BookCount(orders[..i]) + j
        invariant subtotal == UnitPrice * booksCount as real
      {
        subtotal := subtotal + UnitPrice;
        booksCount := booksCount + 1;
        j := j + 1;
      }
      assert orders[..i + 1][..i] == orders[..i];
      i := i + 1;
    }
    assert orders[..i] == orders;
    var discount := subtotal * DiscountRate;
    var deliveryCharges := if subtotal > FreeDeliveryAbove then 0.0 else DeliveryCharge;
    t := Totals(subtotal, discount, deliveryCharges, subtotal - discount + deliveryCharges, booksCount);
  }

  /** At 39.5 per book, delivery becomes free from the third book on. */
  lemma FreeDeliveryFromThreeBooks(n: nat)
    ensures UnitPrice * n as real > FreeDeliveryAbove <==> n >= 3
  {
    if n >= 3 {
      assert UnitPrice * n as real >= UnitPrice * 3.0;
    }
  }

  /** `status.toLowerCase()` switched over: delivered and returned are green,
      pending is orange, everything else grey. */
  const Green := "#4CAF50"
  const Orange := "#FF9800"
  const Grey := "#757575"

  function StatusColor(status: string): (color: string)
    ensures color == Green <==> ToLower(status) == "delivered" || ToLower(status) == "returned"
    ensures color == Orange <==> ToLower(status) == "pending"
    ensures color == Green || color == Orange || color == Grey
  {
    match ToLower(status)
    case "delivered" => Green
    case "pending" => Orange
    case "returned" => Green
    case _ => Grey
  }

  /** The colour does not depend on letter case. */
  lemma StatusColorIgnoresCase(status: string)
    ensures StatusColor(ToLower(status)) == StatusColor(status)
  {
    ToLowerIdempotent(status);
  }

  /** The status filter of `renderBorrowedBooks` (exact, case-sensitive). */
  predicate IsBorrowed(b: CartBook) {
    b.status == "Delivered" || b.status == "Returned"
  }

  /** Every book in the borrowed list is shown in green. */
  lemma BorrowedShownGreen(b: CartBook)
    requires IsBorrowed(b)
    ensures StatusColor(b.status) == Green
  {
    if b.status == "Delivered" {
      assert ToLower("Delivered") == "delivered";
    } else {
      assert ToLower("Returned") == "returned";
    }
  }

  /** An entry of the borrowed-books list. */
  datatype BorrowedEntry = BorrowedEntry(
    title: string,
    author: Option<string>,
    status: string,
    returnDate: Option<string>,
    expectedReturnDate: Option<string>)

  /** The entry pushed for a book; `authors[0]` is undefined for a book with no authors. */
  function Entry(b: CartBook): BorrowedEntry {
    BorrowedEntry(b.title, if b.authors == [] then None else Some(b.authors[0]),
      b.status, b.returnDate, b.expectedReturnDate)
  }

  /** The entries pushed for a list of books, one per book, in order. */
  function Entries(books: seq<CartBook>): seq<BorrowedEntry> {
    seq(|books|, i requires 0 <= i < |books| => Entry(books[i]))
  }

  lemma PrefixSnoc(done: seq<CartBook>, books: seq<CartBook>, j: nat)
    requires j < |books|
    ensures done + books[..j + 1] == done + books[..j] + [books[j]]
  {
    assert books[..j + 1] == books[..j] + [books[j]];
  }

  lemma FlattenStep(orders: seq<Order>, i: nat)
    requires i < |orders|
    ensures Flatten(orders[..i + 1]) == Flatten(orders[..i]) + orders[i].books
  {
    assert orders[..i + 1][..i] == orders[..i];
  }

  /** Visiting one more book extends the borrowed list by its entry exactly
      when the book is borrowed. */
  lemma BorrowedStep(visited: seq<CartBook>, book: CartBook)
    ensures Entries(Filter(visited + [book], IsBorrowed)) ==
      if IsBorrowed(book) then Entries(Filter(visited, IsBorrowed)) + [Entry(book)]
      else Entries(Filter(visited, IsBorrowed))
  {
    FilterSnoc(visited, book, IsBorrowed);
  }

  /** `renderBorrowedBooks`: one entry per delivered or returned book, in
      order-then-book order. */
  method BorrowedBooks(orders: seq<Order>) returns (borrowed: seq<BorrowedEntry>)
    ensures borrowed == Entries(Filter(Flatten(orders), IsBorrowed))
  {
    borrowed := [];
    var i := 0;
    while i < |orders|
      invariant 0 <= i <= |orders|
      invariant borrowed == Entries(Filter(Flatten(orders[..i]), IsBorrowed))
    {
      var books := orders[i].books;
      ghost var done := Flatten(orders[..i]);
      var j := 0;
      assert done + books[..0] == done;
      while j < |books|
        invariant 0 <= j <= |books|
        invariant borrowed == Entries(Filter(done + books[..j], IsBorrowed))
      {
        var book := books[j];
        BorrowedStep(done + books[..j], book);
        PrefixSnoc(done, books, j);
        if book.status == "Delivered" || book.status == "Returned" {
          borrowed := borrowed + [Entry(book)];
        }
        j := j + 1;
      }
      assert books[..j] == books;
      FlattenStep(orders, i);
      i := i + 1;
    }
    assert orders[..i] == orders;
  }

  /** The borrowed list holds an entry for exactly the delivered or returned
      books found in some order. */
  lemma BorrowedListIsComplete(orders: seq<Order>, b: CartBook)
    ensures (IsBorrowed(b) && exists i | 0 <= i < |orders| :: b in orders[i].books) ==>
      Entry(b) in Entries(Filter(Flatten(orders), IsBorrowed))
    ensures b in Filter(Flatten(orders), IsBorrowed) <==>
      IsBorrowed(b) && exists i | 0 <= i < |orders| :: b in orders[i].books
  {
    FlattenMembership(orders, b);
    var kept := Filter(Flatten(orders), IsBorrowed);
    if b in kept {
      var k :| 0 <= k < |kept| && kept[k] == b;
      assert Entries(kept)[k] == Entry(b);
    }
  }

  function KeepsOtherItems(itemId: int): CartBook -> bool {
    (b: CartBook) => b.itemId != itemId
  }

  /** `removeBook(orderId, itemId)`: the books with that `itemId` disappear
      from the order with that `orderId`; the other books of that order keep
      their order, and every other order is unchanged. */
  function RemoveBook(orders: seq<Order>, orderId: int, itemId: int): (r: seq<Order>)
    ensures |r| == |orders|
    ensures forall i :: 0 <= i < |r| ==> r[i].orderId == orders[i].orderId && r[i].totalBooks == orders[i].totalBooks
    ensures forall i :: 0 <= i < |r| && orders[i].orderId != orderId ==> r[i] == orders[i]
    ensures forall i, k :: 0 <= i < |r| && 0 <= k < |r[i].books| ==>
      r[i].books[k] in orders[i].books && (orders[i].orderId == orderId ==> r[i].books[k].itemId != itemId)
    ensures forall i, k :: 0 <= i < |r| && 0 <= k < |orders[i].books| && orders[i].books[k].itemId != itemId ==>
      orders[i].books[k] in r[i].books
    ensures forall i :: 0 <= i < |r| && orders[i].orderId == orderId ==>
      r[i].books == Filter(orders[i].books, KeepsOtherItems(itemId))
  {
    seq(|orders|, i requires 0 <= i < |orders| =>
      if orders[i].orderId == orderId
      then orders[i].(books := Filter(orders[i].books, KeepsOtherItems(itemId)))
      else orders[i])
  }

  /** Removing the same book twice is removing it once. */
  lemma RemoveBookIdempotent(orders: seq<Order>, orderId: int, itemId: int)
    ensures RemoveBook(RemoveBook(orders, orderId, itemId), orderId, itemId) == RemoveBook(orders, orderId, itemId)
  {
    var once := RemoveBook(orders, orderId, itemId);
    var twice := RemoveBook(once, orderId, itemId);
    forall i | 0 <= i < |orders| ensures twice[i] == once[i] {
      if orders[i].orderId == orderId {
        FilterIdempotent(orders[i].books, KeepsOtherItems(itemId));
      }
    }
  }

  /** The body of a `/Orders/my-orders` response: `{success, data: {orders}}`. */
  datatype OrdersResponse = OrdersResponse(success: bool, orders: Option<seq<Order>>)

  /** `result.success && result.data?.orders`: the response carries an order list. */
  predicate HasOrders(outcome: Outcome<OrdersResponse>) {
    outcome.Succeeded? && outcome.response.success && outcome.response.orders.Some?
  }

  /** The sum of the server-declared `totalBooks` of each order. */
  function DeclaredBooks(orders: seq<Order>): int {
    if orders == [] then 0
    else DeclaredBooks(orders[..|orders| - 1]) + orders[|orders| - 1].totalBooks
  }

  /** The query parameters of an orders request. */
  function OrdersParams(pageNum: int, status: Option<int>): Params {
    var params := map[Key.page := Int(pageNum), Key.pageSize := Int(PageSize)];
    if status.Some? && 1 <= status.value <= 7 then params[Key.status := Int(status.value)] else params
  }

  /** An orders request always carries the page and the page size 60, and
      `status` exactly when it is a value from 1 to 7. */
  lemma OrdersParamsShape(pageNum: int, status: Option<int>)
    ensures var r := OrdersParams(pageNum, status);
      && r.Keys <= {Key.page, Key.pageSize, Key.status}
      && Key.page in r && r[Key.page] == Int(pageNum)
      && Key.pageSize in r && r[Key.pageSize] == Int(PageSize)
      && (Key.status in r <==> status.Some? && 1 <= status.value <= 7)
      && (Key.status in r ==> r[Key.status] == Int(status.value))
  {
  }

  class CartScreen {
    var orders: seq<Order>
    var loading: bool
    var refreshing: bool
    var page: int
    var hasMoreData: bool
    var totalBooks: int
    var status: Option<int>

    ghost predicate Valid()
      reads this
    {
      page >= 1
    }

    constructor ()
      ensures Valid()
      ensures orders == [] && !loading && !refreshing && page == 1 && hasMoreData
      ensures totalBooks == 0 && status == Some(1)
    {
      orders := [];
      loading := false;
      refreshing := false;
      page := 1;
      hasMoreData := true;
      totalBooks := 0;
      status := Some(1);
    }

    /** `fetchOrders(pageNum, isRefresh)`: ignored while a load is running
        unless it is a refresh. A response with orders replaces the list on a
        refresh or page 1 and appends otherwise; `hasMoreData` records whether
        a full page came back and `totalBooks` sums the declared counts. A
        successful response without orders ends paging and, on page 1, drops
        the status filter. A failure changes none of these. */
    method FetchOrders(pageNum: int, isRefresh: bool, outcome: Outcome<OrdersResponse>)
      returns (request: Option<Params>)
      requires Valid()
      modifies this
      ensures Valid()
      ensures old(loading) && !isRefresh ==> request.None? && unchanged(this)
      ensures !(old(loading) && !isRefresh) ==>
        && request == Some(OrdersParams(pageNum, old(status)))
        && !loading && !refreshing && page == old(page)
      ensures !(old(loading) && !isRefresh) && HasOrders(outcome) ==>
        var newOrders := outcome.response.orders.value;
        var replace := isRefresh || pageNum == 1;
        && orders == (if replace then newOrders else old(orders) + newOrders)
        && hasMoreData == (|newOrders| == PageSize)
        && totalBooks == (if replace then DeclaredBooks(newOrders) else old(totalBooks) + DeclaredBooks(newOrders))
        && status == old(status)
      ensures !(old(loading) && !isRefresh) && outcome.Succeeded? && !HasOrders(outcome) ==>
        && orders == old(orders) && !hasMoreData && totalBooks == old(totalBooks)
        && status == (if pageNum == 1 then None else old(status))
      ensures outcome.Failed? ==>
        && orders == old(orders) && hasMoreData == old(hasMoreData)
        && totalBooks == old(totalBooks) && status == old(status)
    {
      if loading && !isRefresh {
        return None;
      }
      loading := true;
      request := Some(OrdersParams(pageNum, status));
      match outcome {
        case Succeeded(result) =>
          if result.success && result.orders.Some? {
            var newOrders := result.orders.value;
            if isRefresh || pageNum == 1 {
              orders := newOrders;
            } else {
              orders := orders + newOrders;
            }
            hasMoreData := |newOrders| == PageSize;
            var totalBooksCount := 0;
            var i := 0;
            while i < |newOrders|
              invariant 0 <= i <= |newOrders|
              invariant totalBooksCount == DeclaredBooks(newOrders[..i])
            {
              assert newOrders[..i + 1][..i] == newOrders[..i];
              totalBooksCount := totalBooksCount + newOrders[i].totalBooks;
              i := i + 1;
            }
            assert newOrders[..i] == newOrders;
            totalBooks := if isRefresh || pageNum == 1 then totalBooksCount else totalBooks + totalBooksCount;
          } else {
            hasMoreData := false;
            if pageNum == 1 && status.Some? {
              status := None;
            }
          }
        case Failed =>
      }
      loading := false;
      refreshing := false;
    }

    /** The effect run on mount and whenever `status` changes: a refreshing load of page 1. */
    method OnStatusChange(outcome: Outcome<OrdersResponse>) returns (request: Params)
      requires Valid()
      modifies this
      ensures Valid()
      ensures request == OrdersParams(1, old(status))
      ensures page == old(page) && !loading && !refreshing
      ensures HasOrders(outcome) ==>
        && orders == outcome.response.orders.value
        && hasMoreData == (|orders| == PageSize)
        && totalBooks == DeclaredBooks(orders) && status == old(status)
      ensures outcome.Succeeded? && !HasOrders(outcome) ==>
        orders == old(orders) && !hasMoreData && totalBooks == old(totalBooks) && status.None?
      ensures outcome.Failed? ==>
        && orders == old(orders) && hasMoreData == old(hasMoreData)
        && totalBooks == old(totalBooks) && status == old(status)
    {
      var sent := FetchOrders(1, true, outcome);
      request := sent.value;
    }

    /** `loadMoreData`: fetches only when idle and more data is expected, and
        then moves to the next page, which is appended. */
    method LoadMoreData(outcome: Outcome<OrdersResponse>) returns (request: Option<Params>)
      requires Valid()
      modifies this
      ensures Valid()
      ensures old(loading) || !old(hasMoreData) ==> request.None? && unchanged(this)
      ensures !old(loading) && old(hasMoreData) ==>
        && page == old(page) + 1
        && request == Some(OrdersParams(page, old(status)))
      ensures request.Some? ==> !loading && !refreshing && status == old(status)
      ensures request.Some? && HasOrders(outcome) ==>
        && orders == old(orders) + outcome.response.orders.value
        && hasMoreData == (|outcome.response.orders.value| == PageSize)
        && totalBooks == old(totalBooks) + DeclaredBooks(outcome.response.orders.value)
      ensures request.Some? && outcome.Succeeded? && !HasOrders(outcome) ==>
        orders == old(orders) && !hasMoreData && totalBooks == old(totalBooks)
      ensures request.Some? && outcome.Failed? ==>
        orders == old(orders) && hasMoreData && totalBooks == old(totalBooks)
    {
      if !loading && hasMoreData {
        var nextPage := page + 1;
        page := nextPage;
        request := FetchOrders(nextPage, false, outcome);
      } else {
        request := None;
      }
    }

    /** `onRefresh`: back to page 1 with paging re-enabled, then a refreshing
        load of page 1 that replaces the list. */
    method OnRefresh(outcome: Outcome<OrdersResponse>) returns (request: Params)
      requires Valid()
      modifies this
      ensures Valid()
      ensures page == 1 && !refreshing && !loading
      ensures request == OrdersParams(1, old(status))
      ensures HasOrders(outcome) ==>
        && orders == outcome.response.orders.value
        && hasMoreData == (|orders| == PageSize)
        && totalBooks == DeclaredBooks(orders) && status == old(status)
      ensures outcome.Succeeded? && !HasOrders(outcome) ==>
        orders == old(orders) && !hasMoreData && totalBooks == old(totalBooks) && status.None?
      ensures outcome.Failed? ==>
        orders == old(orders) && hasMoreData && totalBooks == old(totalBooks) && status == old(status)
    {
      refreshing := true;
      page := 1;
      hasMoreData := true;
      var sent := FetchOrders(1, true, outcome);
      request := sent.value;
    }

    /** The confirmed branch of `removeBook`'s dialog. */
    method ConfirmRemoveBook(orderId: int, itemId: int)
      modifies this`orders
      ensures orders == RemoveBook(old(orders), orderId, itemId)
    {
      orders := RemoveBook(orders, orderId, itemId);
    }
  }
}
