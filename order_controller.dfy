/**
 * The order operations of app/Http/Controllers/OrderController.php over an
 * in-memory table of orders. The user service, the catalog and the cart
 * service are oracles passed in by the caller; every outbound call is
 * recorded, so that "no further call is made" can be stated.
 */
module OrderController {
  import opened Wrappers
  import opened OrderModel
  import opened BookService
  import opened Text

  /** A JSON request field: absent, explicitly null, or holding a value. */
  datatype Field<T> = Absent | Null | Present(value: T)

  /** The body of POST /orders. A missing `items` key reads as no items. */
  datatype CreateRequest = CreateRequest(
    userId: Option<int>,
    items: seq<Item>,
    shippingAddress: Option<string>,
    notes: Option<string>
  )

  /** The body of PUT/PATCH /orders/{id}: a sparse patch. */
  datatype UpdateRequest = UpdateRequest(status: Field<string>, shippingAddress: Field<string>, notes: Field<string>)

  /** What the cart service answers to a clear request; clearCart never throws. */
  datatype CartReply = Cleared | SkippedUnconfigured | Failed(message: string)

  /** The error responses of the controller. */
  datatype ApiError =
    | ValidationFailed
    | OrderNotFound
    | UserNotFound
    | InventoryInvalid(errors: seq<InventoryError>)
    | CancelThroughUpdate
    | IllegalTransition(from: Status, to: Status)
    | AddressLocked
    | NothingChanged
    | CannotCancel(status: Status)
  {
    /** The HTTP status code of the response. */
    function Code(): (code: int)
      ensures code == 404 <==> this.OrderNotFound? || this.UserNotFound?
      ensures code == 400 <==> this.CancelThroughUpdate?
      ensures code == 422 <==> !(this.OrderNotFound? || this.UserNotFound? || this.CancelThroughUpdate?)
    {
      match this
      case OrderNotFound => 404
      case UserNotFound => 404
      case CancelThroughUpdate => 400
      case _ => 422
    }

    /** The message the controller puts in the response; framework errors carry none here. */
    function Message(): string {
      match this
      case ValidationFailed => ""
      case OrderNotFound => ""
      case UserNotFound => "User does not exist"
      case InventoryInvalid(_) => "Inventory validation failed"
      case CancelThroughUpdate => "Use DELETE /orders/{id} to cancel an order"
      case IllegalTransition(from, to) => "Cannot transition from '" + Name(from) + "' to '" + Name(to) + "'"
      case AddressLocked => "Can only update shipping address for pending orders"
      case NothingChanged => "At least one value must change"
      case CannotCancel(status) =>
        "Cannot cancel order with status '" + Name(status)
        + "'. Only 'pending' or 'processing' orders can be cancelled."
    }
  }

  /**
   * Only the framework's own errors come without a controller text, and the
   * transition and cancellation refusals name the statuses involved.
   */
  lemma ErrorTextNamesStatuses(e: ApiError)
    ensures e.Message() == "" <==> e.ValidationFailed? || e.OrderNotFound?
    ensures e.IllegalTransition? ==> Contains(e.Message(), Name(e.from)) && Contains(e.Message(), Name(e.to))
    ensures e.CannotCancel? ==> Contains(e.Message(), Name(e.status))
  {
    match e
    case IllegalTransition(from, to) =>
      var head, f, t := "Cannot transition from '", Name(from), Name(to);
      ContainsSuffix(head, f);
      ContainsExtend(head + f, f, "' to '");
      ContainsExtend(head + f + "' to '", f, t);
      ContainsExtend(head + f + "' to '" + t, f, "'");
      ContainsSuffix(head + f + "' to '", t);
      ContainsExtend(head + f + "' to '" + t, t, "'");
    case CannotCancel(status) =>
      var head, n := "Cannot cancel order with status '", Name(status);
      ContainsSuffix(head, n);
      ContainsExtend(head + n, n, "'. Only 'pending' or 'processing' orders can be cancelled.");
    case _ =>
  }

  datatype Response<T> = Success(code: int, body: T) | Failure(error: ApiError)

  /** What PHP's trim() removes: a string made only of these is blank. */
  predicate Blank(s: string) {
    forall k :: 0 <= k < |s| ==> s[k] in " \t\n\r\0\U{0B}"
  }

  /** `string|max:n` on a present value; the validator skips both rules for a blank string. */
  predicate FitsMax(s: string, n: nat) {
    Blank(s) || |s| <= n
  }

  /** The rules of `items.*`: book_id and quantity at least 1, price at least 0. */
  predicate ItemRulesHold(item: Item) {
    && item.bookId.Some? && item.bookId.value >= 1
    && item.quantity.Some? && item.quantity.value >= 1
    && item.price.Some? && item.price.value >= 0
  }

  /**
   * The validation rules of store. A request that passes them has an id on
   * every line, so the inventory check never reports a missing book_id, and
   * every line's requested quantity is the one sent.
   */
  predicate CreateRulesHold(req: CreateRequest)
    ensures CreateRulesHold(req) ==> forall i :: 0 <= i < |req.items| ==>
      && !MissingId(req.items[i])
      && req.items[i].quantity == Some(Requested(req.items[i]))
    ensures CreateRulesHold(req) ==> req.items != [] && req.shippingAddress.Some? && !Blank(req.shippingAddress.value)
  {
    && req.userId.Some? && req.userId.value >= 1
    && |req.items| >= 1
    && (forall i :: 0 <= i < |req.items| ==> ItemRulesHold(req.items[i]))
    && req.shippingAddress.Some? && !Blank(req.shippingAddress.value) && |req.shippingAddress.value| <= 500
    && (req.notes.Some? ==> FitsMax(req.notes.value, 1000))
  }

  /**
   * The validation rules of update: a present status must be one of the listed
   * status names (null is refused), a present address may not be null, notes may be null.
   */
  predicate UpdateRulesHold(req: UpdateRequest)
    ensures UpdateRulesHold(req) && req.status.Present? ==> req.status.value in ValidStatuses()
    ensures UpdateRulesHold(req) ==> !req.status.Null? && !req.shippingAddress.Null?
    ensures req.status.Present? && req.status.value !in ValidStatuses() ==> !UpdateRulesHold(req)
  {
    && (match req.status
        case Absent => true
        case Null => false
        case Present(s) => Parse(s).Some?)
    && (match req.shippingAddress
        case Absent => true
        case Null => false
        case Present(s) => FitsMax(s, 500))
    && (match req.notes
        case Absent => true
        case Null => true
        case Present(s) => FitsMax(s, 1000))
  }

  /**
   * After store's rules pass, the catalog is asked about every line, in order:
   * one lookup per line, under that line's id.
   */
  lemma {:induction false} ValidatedLinesAllLookedUp(items: seq<Item>)
    requires forall i :: 0 <= i < |items| ==> ItemRulesHold(items[i])
    ensures |QueriedIds(items)| == |items|
    ensures forall i :: 0 <= i < |items| ==> items[i].bookId == Some(QueriedIds(items)[i])
    decreases |items|
  {
    if items != [] {
      var front := items[..|items| - 1];
      assert forall i :: 0 <= i < |front| ==> front[i] == items[i];
      ValidatedLinesAllLookedUp(front);
    }
  }

  /** The title store copies into a line: the validated book's, or 'Unknown'. */
  function TitleOf(books: map<int, Book>, bookId: int): string {
    if bookId in books && books[bookId].title.Some? then books[bookId].title.value else "Unknown"
  }

  /** The line store writes for one requested item. */
  predicate PricedLine(line: LineItem, item: Item, books: map<int, Book>)
    requires ItemRulesHold(item)
  {
    && line.bookId == item.bookId.value
    && line.title == TitleOf(books, item.bookId.value)
    && line.quantity == item.quantity
    && line.price == item.price
    && line.subtotal == item.price.value * item.quantity.value
  }

  /** The order store creates from a validated request. */
  predicate CreatedFrom(o: Order, req: CreateRequest, books: map<int, Book>)
    requires CreateRulesHold(req)
  {
    && o.userId == req.userId.value
    && o.status == Pending
    && |o.items| == |req.items|
    && (forall k :: 0 <= k < |req.items| ==> PricedLine(o.items[k], req.items[k], books))
    && o.total == CalculateTotal(o.items)
    && o.shippingAddress == req.shippingAddress.value
    && o.notes == req.notes
  }

  /**
   * Step 3 of store: one line per item, in order, priced with the price the
   * caller sent, and the running total.
   */
  method PriceItems(items: seq<Item>, books: map<int, Book>) returns (lines: seq<LineItem>, total: int)
    requires forall k :: 0 <= k < |items| ==> ItemRulesHold(items[k])
    ensures |lines| == |items|
    ensures forall k :: 0 <= k < |items| ==> PricedLine(lines[k], items[k], books)
    ensures total == SumSubtotals(lines) && total == CalculateTotal(lines)
    ensures total >= 0
  {
    lines := [];
    total := 0;
    var i := 0;
    while i < |items|
      invariant 0 <= i <= |items|
      invariant |lines| == i
      invariant forall k :: 0 <= k < i ==> PricedLine(lines[k], items[k], books)
      invariant total == SumSubtotals(lines)
    {
      var item := items[i];
      var bookId := item.bookId.value;
      var quantity := item.quantity.value;
      var price := item.price.value;
      var subtotal := price * quantity;
      total := total + subtotal;
      var line := LineItem(bookId, TitleOf(books, bookId), Some(quantity), Some(price), subtotal);
      assert (lines + [line])[..i] == lines;
      lines := lines + [line];
      i := i + 1;
    }
    SubtotalsMatchCalculateTotal(lines);
    assert NonNegativeAmounts(lines);
  }

  /** For a valid inventory, every line's title is the catalog's title for its book, or 'Unknown'. */
  lemma TitlesComeFromCatalog(catalog: Catalog, items: seq<Item>)
    requires Validate(catalog, items).valid
    ensures forall i :: 0 <= i < |items| ==>
      !MissingId(items[i]) && catalog(items[i].bookId.value).Some? &&
      TitleOf(Validate(catalog, items).books, items[i].bookId.value)
        == catalog(items[i].bookId.value).value.title.GetOr("Unknown")
  {
    ValidMeansEveryLineStored(catalog, items);
  }

  /** `$order->fill($request->only([...]))`: the present fields overwrite the order's, nothing else moves. */
  function Patched(o: Order, req: UpdateRequest): (p: Order)
    requires UpdateRulesHold(req)
    ensures p.id == o.id && p.userId == o.userId && p.items == o.items && p.total == o.total
    ensures req.status.Absent? ==> p.status == o.status
    ensures req.status.Present? ==> Name(p.status) == req.status.value
    ensures req.shippingAddress.Absent? ==> p.shippingAddress == o.shippingAddress
    ensures req.shippingAddress.Present? ==> p.shippingAddress == req.shippingAddress.value
    ensures req.notes.Absent? ==> p.notes == o.notes
    ensures req.notes.Null? ==> p.notes == None
    ensures req.notes.Present? ==> p.notes == Some(req.notes.value)
  {
    var status := if req.status.Present? then Parse(req.status.value).value else o.status;
    var address := if req.shippingAddress.Present? then req.shippingAddress.value else o.shippingAddress;
    var notes := match req.notes
      case Absent => o.notes
      case Null => None
      case Present(s) => Some(s);
    o.(status := status, shippingAddress := address, notes := notes)
  }

  /** The status guard of update: none requested, or a legal change other than cancelling. */
  predicate StatusAccepted(o: Order, req: UpdateRequest)
    requires UpdateRulesHold(req)
  {
    req.status.Present? ==>
      Parse(req.status.value).value != Cancelled && CanTransition(o.status, Parse(req.status.value).value)
  }

  /** The address guard of update: the address may change only while pending. */
  predicate AddressAccepted(o: Order, req: UpdateRequest) {
    req.shippingAddress.Present? ==> o.status == Pending
  }

  /**
   * update guards the status and the address only: a patch of the notes alone
   * passes every guard in any status, shipped and delivered included, and
   * changes nothing but the notes.
   */
  lemma NotesEditableInAnyStatus(o: Order, note: string)
    requires FitsMax(note, 1000) && o.notes != Some(note)
    ensures var req := UpdateRequest(Absent, Absent, Present(note));
      && UpdateRulesHold(req) && StatusAccepted(o, req) && AddressAccepted(o, req)
      && Patched(o, req) != o && Patched(o, req) == o.(notes := Some(note))
  {
  }

  /** The table of orders, with the outbound calls made so far. */
  class OrderStore {
    var orders: map<int, Order>
    var nextId: int
    var userLookups: seq<int>
    var catalogLookups: seq<int>
    var cartClears: seq<int>

    /**
     * Every stored order is keyed by its id, below the next id, well formed,
     * and not cancelled (cancelling deletes the row).
     */
    ghost predicate Valid()
      reads this
    {
      && nextId >= 1
      && forall id :: id in orders ==>
           && 1 <= id < nextId && orders[id].id == id
           && WellFormed(orders[id]) && orders[id].status != Cancelled
    }

    constructor ()
      ensures Valid()
      ensures orders == map[] && userLookups == [] && catalogLookups == [] && cartClears == []
    {
      orders := map[];
      nextId := 1;
      userLookups := [];
      catalogLookups := [];
      cartClears := [];
    }

    /** OrderController::store: validate, check the user, check the inventory, price, insert, clear the cart. */
    method Store(req: CreateRequest, userExists: int -> bool, catalog: Catalog, cartReply: CartReply)
      returns (r: Response<Order>)
      requires Valid()
      modifies this
      ensures Valid()
      ensures !CreateRulesHold(req) ==>
        && r == Failure(ValidationFailed) && orders == old(orders) && nextId == old(nextId)
        && userLookups == old(userLookups) && catalogLookups == old(catalogLookups) && cartClears == old(cartClears)
      ensures CreateRulesHold(req) ==> userLookups == old(userLookups) + [req.userId.value]
      ensures CreateRulesHold(req) && !userExists(req.userId.value) ==>
        && r == Failure(UserNotFound) && orders == old(orders) && nextId == old(nextId)
        && catalogLookups == old(catalogLookups) && cartClears == old(cartClears)
      ensures CreateRulesHold(req) && userExists(req.userId.value) ==>
        catalogLookups == old(catalogLookups) + QueriedIds(req.items)
      ensures CreateRulesHold(req) && userExists(req.userId.value) && !Validate(catalog, req.items).valid ==>
        && r == Failure(InventoryInvalid(Validate(catalog, req.items).errors))
        && orders == old(orders) && nextId == old(nextId) && cartClears == old(cartClears)
      ensures CreateRulesHold(req) && userExists(req.userId.value) && Validate(catalog, req.items).valid ==>
        && r.Success? && r.code == 201
        && r.body.id == old(nextId) && r.body.id !in old(orders)
        && orders == old(orders)[r.body.id := r.body] && nextId == old(nextId) + 1
        && CreatedFrom(r.body, req, Validate(catalog, req.items).books)
        && cartClears == old(cartClears) + [req.userId.value]
    {
      if !CreateRulesHold(req) {
        return Failure(ValidationFailed);
      }
      var userId := req.userId.value;
      userLookups := userLookups + [userId];
      if !userExists(userId) {
        return Failure(UserNotFound);
      }
      var validation, queried := ValidateInventory(catalog, req.items);
      catalogLookups := catalogLookups + queried;
      if !validation.valid {
        return Failure(InventoryInvalid(validation.errors));
      }
      var lines, total := PriceItems(req.items, validation.books);
      var order := Order(nextId, userId, Pending, total, lines, req.shippingAddress.value, req.notes);
      orders := orders[nextId := order];
      nextId := nextId + 1;
      // The cart is cleared on a best-effort basis: whatever cartReply says, the order stands.
      cartClears := cartClears + [userId];
      r := Success(201, order);
    }

    /** OrderController::update: guards in order, then the patch, then the "something changed" check. */
    method Update(id: int, req: UpdateRequest) returns (r: Response<Order>)
      requires Valid()
      modifies this`orders
      ensures Valid()
      ensures r.Failure? ==> orders == old(orders)
      ensures id !in old(orders) ==> r == Failure(OrderNotFound)
      ensures id in old(orders) && !UpdateRulesHold(req) ==> r == Failure(ValidationFailed)
      ensures id in old(orders) && UpdateRulesHold(req) && req.status == Present(Name(Cancelled)) ==>
        r == Failure(CancelThroughUpdate)
      ensures id in old(orders) && UpdateRulesHold(req) && req.status.Present?
              && Parse(req.status.value).value != Cancelled
              && !CanTransition(old(orders)[id].status, Parse(req.status.value).value) ==>
        r == Failure(IllegalTransition(old(orders)[id].status, Parse(req.status.value).value))
      ensures id in old(orders) && UpdateRulesHold(req) && StatusAccepted(old(orders)[id], req)
              && !AddressAccepted(old(orders)[id], req) ==>
        r == Failure(AddressLocked)
      ensures id in old(orders) && UpdateRulesHold(req) && StatusAccepted(old(orders)[id], req)
              && AddressAccepted(old(orders)[id], req) ==>
        if Patched(old(orders)[id], req) == old(orders)[id] then r == Failure(NothingChanged)
        else r == Success(200, Patched(old(orders)[id], req)) && orders == old(orders)[id := r.body]
      ensures r.Success? ==>
        && id in old(orders) && r.body.id == id
        && r.body.userId == old(orders)[id].userId && r.body.items == old(orders)[id].items
        && r.body.total == old(orders)[id].total
        && (r.body.status == old(orders)[id].status || CanTransition(old(orders)[id].status, r.body.status))
      ensures r.Success? ==>
        && Show(orders, id) == r
        && UserOrders(orders, r.body.userId) == UserOrders(old(orders), r.body.userId)[id := r.body]
        && forall u :: u != r.body.userId ==> UserOrders(orders, u) == UserOrders(old(orders), u)
    {
      if id !in orders {
        return Failure(OrderNotFound);
      }
      var order := orders[id];
      if !UpdateRulesHold(req) {
        return Failure(ValidationFailed);
      }
      if req.status.Present? {
        var newStatus := req.status.value;
        if newStatus == Name(Cancelled) {
          return Failure(CancelThroughUpdate);
        }
        if !CanTransitionTo(Name(order.status), newStatus) {
          return Failure(IllegalTransition(order.status, Parse(newStatus).value));
        }
      }
      if req.shippingAddress.Present? && order.status != Pending {
        return Failure(AddressLocked);
      }
      var patched := Patched(order, req);
      if patched == order {
        return Failure(NothingChanged);
      }
      ShowAfterPut(orders, patched);
      UserOrdersAfterPut(orders, patched);
      orders := orders[id := patched];
      r := Success(200, patched);
    }

    /** OrderController::destroy: only pending or processing orders; the row is then deleted. */
    method Destroy(id: int) returns (r: Response<Order>)
      requires Valid()
      modifies this`orders
      ensures Valid()
      ensures id !in old(orders) ==> r == Failure(OrderNotFound) && orders == old(orders)
      ensures id in old(orders) && !CanBeCancelled(old(orders)[id].status) ==>
        r == Failure(CannotCancel(old(orders)[id].status)) && orders == old(orders)
      ensures id in old(orders) && CanBeCancelled(old(orders)[id].status) ==>
        && r == Success(200, old(orders)[id].(status := Cancelled))
        && orders == old(orders) - {id}
      ensures r.Success? ==>
        && Show(orders, id) == Failure(OrderNotFound)
        && UserOrders(orders, r.body.userId) == UserOrders(old(orders), r.body.userId) - {id}
        && forall u :: u != r.body.userId ==> UserOrders(orders, u) == UserOrders(old(orders), u)
    {
      if id !in orders {
        return Failure(OrderNotFound);
      }
      var order := orders[id];
      if !CanBeCancelled(order.status) {
        return Failure(CannotCancel(order.status));
      }
      ShowAfterRemove(orders, id);
      UserOrdersAfterRemove(orders, id);
      order := order.(status := Cancelled);
      orders := orders[id := order];
      orders := orders - {id};
      r := Success(200, order);
    }
  }

  /** OrderController::show: the order, or 404. */
  function Show(orders: map<int, Order>, id: int): (r: Response<Order>)
    ensures r.Success? <==> id in orders
    ensures r.Success? ==> r.code == 200 && r.body == orders[id]
    ensures r.Failure? ==> r.error == OrderNotFound
  {
    if id in orders then Success(200, orders[id]) else Failure(OrderNotFound)
  }

  /** The status filter of index: every order when no status is given, else those whose status string matches. */
  function Index(orders: map<int, Order>, status: Option<string>): (r: map<int, Order>)
    ensures forall id :: id in r <==> id in orders && (status.None? || Name(orders[id].status) == status.value)
    ensures forall id :: id in r ==> r[id] == orders[id]
  {
    if status.None? then orders
    else map id | id in orders && Name(orders[id].status) == status.value :: orders[id]
  }

  /** A status filter naming no status matches nothing. */
  lemma UnknownStatusMatchesNothing(orders: map<int, Order>, status: string)
    requires Parse(status).None?
    ensures Index(orders, Some(status)) == map[]
  {
  }

  /** OrderController::getUserOrders: the orders of one user. */
  function UserOrders(orders: map<int, Order>, userId: int): (r: map<int, Order>)
    ensures forall id :: id in r <==> id in orders && orders[id].userId == userId
    ensures forall id :: id in r ==> r[id] == orders[id]
  {
    map id | id in orders && orders[id].userId == userId :: orders[id]
  }

  /** After an order is written under its id, show returns it there and answers as before elsewhere. */
  lemma ShowAfterPut(orders: map<int, Order>, o: Order)
    ensures Show(orders[o.id := o], o.id) == Success(200, o)
    ensures forall id :: id != o.id ==> Show(orders[o.id := o], id) == Show(orders, id)
  {
  }

  /** After a row is deleted, show answers 404 for it and as before elsewhere. */
  lemma ShowAfterRemove(orders: map<int, Order>, gone: int)
    ensures Show(orders - {gone}, gone) == Failure(OrderNotFound)
    ensures forall id :: id != gone ==> Show(orders - {gone}, id) == Show(orders, id)
  {
  }

  /**
   * Writing an order that is new, or that keeps its stored owner, adds or
   * replaces it among its owner's orders and leaves every other user's list as it was.
   */
  lemma UserOrdersAfterPut(orders: map<int, Order>, o: Order)
    requires o.id in orders ==> orders[o.id].userId == o.userId
    ensures UserOrders(orders[o.id := o], o.userId) == UserOrders(orders, o.userId)[o.id := o]
    ensures forall u :: u != o.userId ==> UserOrders(orders[o.id := o], u) == UserOrders(orders, u)
  {
  }

  /** Deleting a row takes it out of its owner's orders and leaves every other user's list as it was. */
  lemma UserOrdersAfterRemove(orders: map<int, Order>, gone: int)
    requires gone in orders
    ensures UserOrders(orders - {gone}, orders[gone].userId) == UserOrders(orders, orders[gone].userId) - {gone}
    ensures forall u :: u != orders[gone].userId ==> UserOrders(orders - {gone}, u) == UserOrders(orders, u)
  {
  }

  /** The statistics array of the summary endpoint. */
  datatype Stats = Stats(
    totalOrders: nat,
    pending: nat,
    processing: nat,
    shipped: nat,
    delivered: nat,
    cancelled: nat,
    totalRevenue: int
  )

  /** `Order::where('status', s)->count()`. */
  function CountWithStatus(orders: map<int, Order>, s: Status): nat {
    |Index(orders, Some(Name(s)))|
  }

  /** The statuses whose orders count as revenue. */
  predicate Earning(s: Status) {
    s == Shipped || s == Delivered
  }

  function RevenueIds(orders: map<int, Order>): (ids: set<int>)
    ensures ids <= orders.Keys
  {
    set id | id in orders && Earning(orders[id].status)
  }

  lemma NonEmptyHasMember(s: set<int>)
    requires s != {}
    ensures exists x :: x in s
  {
    assert (forall x :: x !in s) ==> s == {};
  }

  /** The sum of `total` over some of the orders. */
  ghost function SumTotals(orders: map<int, Order>, ids: set<int>): int
    requires ids <= orders.Keys
    decreases ids
  {
    if ids == {} then 0
    else
      NonEmptyHasMember(ids);
      var id :| id in ids;
      orders[id].total + SumTotals(orders, ids - {id})
  }

  /** Any order may be taken out of the sum first. */
  lemma {:induction false} SumTotalsRemove(orders: map<int, Order>, ids: set<int>, x: int)
    requires ids <= orders.Keys && x in ids
    ensures SumTotals(orders, ids) == orders[x].total + SumTotals(orders, ids - {x})
    decreases ids
  {
    var y :| y in ids && SumTotals(orders, ids) == orders[y].total + SumTotals(orders, ids - {y});
    if y != x {
      SumTotalsRemove(orders, ids - {y}, x);
      SumTotalsRemove(orders, ids - {x}, y);
      assert ids - {y} - {x} == ids - {x} - {y};
    }
  }

  /** The sum depends only on the totals of the orders summed. */
  lemma {:induction false} SumTotalsCongruent(a: map<int, Order>, b: map<int, Order>, ids: set<int>)
    requires ids <= a.Keys && ids <= b.Keys
    requires forall id :: id in ids ==> a[id].total == b[id].total
    ensures SumTotals(a, ids) == SumTotals(b, ids)
    decreases ids
  {
    if ids != {} {
      NonEmptyHasMember(ids);
      var x :| x in ids;
      SumTotalsRemove(a, ids, x);
      SumTotalsRemove(b, ids, x);
      SumTotalsCongruent(a, b, ids - {x});
    }
  }

  lemma {:induction false} SumTotalsNonNegative(orders: map<int, Order>, ids: set<int>)
    requires ids <= orders.Keys
    ensures (forall id :: id in ids ==> orders[id].total >= 0) ==> SumTotals(orders, ids) >= 0
    decreases ids
  {
    if ids != {} && forall id :: id in ids ==> orders[id].total >= 0 {
      NonEmptyHasMember(ids);
      var x :| x in ids;
      SumTotalsRemove(orders, ids, x);
      SumTotalsNonNegative(orders, ids - {x});
    }
  }

  /** `Order::whereIn('status', [delivered, shipped])->sum('total')`. */
  ghost function Revenue(orders: map<int, Order>): int {
    SumTotals(orders, RevenueIds(orders))
  }

  /** The ids of the orders in one status. */
  function StatusIds(orders: map<int, Order>, s: Status): (ids: set<int>)
    ensures ids <= orders.Keys
  {
    set id | id in orders && orders[id].status == s
  }

  /** Filtering by a status name picks exactly the orders in that status. */
  lemma IndexByStatus(orders: map<int, Order>, s: Status)
    ensures Index(orders, Some(Name(s))).Keys == StatusIds(orders, s)
    ensures CountWithStatus(orders, s) == |StatusIds(orders, s)|
  {
  }

  lemma DisjointUnionSize(a: set<int>, b: set<int>)
    requires a * b == {}
    ensures |a + b| == |a| + |b|
  {
  }

  /** The five per-status filters split the table. */
  lemma CountsPartition(orders: map<int, Order>)
    ensures |orders| == CountWithStatus(orders, Pending) + CountWithStatus(orders, Processing)
      + CountWithStatus(orders, Shipped) + CountWithStatus(orders, Delivered) + CountWithStatus(orders, Cancelled)
  {
    IndexByStatus(orders, Pending);
    IndexByStatus(orders, Processing);
    IndexByStatus(orders, Shipped);
    IndexByStatus(orders, Delivered);
    IndexByStatus(orders, Cancelled);
    var p, q, s, d, c := StatusIds(orders, Pending), StatusIds(orders, Processing),
      StatusIds(orders, Shipped), StatusIds(orders, Delivered), StatusIds(orders, Cancelled);
    assert orders.Keys == p + q + s + d + c;
    DisjointUnionSize(p, q);
    DisjointUnionSize(p + q, s);
    DisjointUnionSize(p + q + s, d);
    DisjointUnionSize(p + q + s + d, c);
  }

  /** OrderController::statistics. */
  ghost function Statistics(orders: map<int, Order>): (st: Stats)
    ensures st.totalOrders == st.pending + st.processing + st.shipped + st.delivered + st.cancelled
    ensures (forall id :: id in orders ==> orders[id].total >= 0) ==> st.totalRevenue >= 0
  {
    CountsPartition(orders);
    SumTotalsNonNegative(orders, RevenueIds(orders));
    Stats(
      |orders|,
      CountWithStatus(orders, Pending),
      CountWithStatus(orders, Processing),
      CountWithStatus(orders, Shipped),
      CountWithStatus(orders, Delivered),
      CountWithStatus(orders, Cancelled),
      Revenue(orders)
    )
  }

  /** Creating an order adds one pending order and leaves the revenue as it was. */
  lemma InsertPendingKeepsRevenue(orders: map<int, Order>, o: Order)
    requires o.id !in orders && o.status == Pending
    ensures Statistics(orders[o.id := o]).pending == Statistics(orders).pending + 1
    ensures Statistics(orders[o.id := o]).totalRevenue == Statistics(orders).totalRevenue
  {
    var after := orders[o.id := o];
    IndexByStatus(after, Pending);
    IndexByStatus(orders, Pending);
    assert StatusIds(after, Pending) == StatusIds(orders, Pending) + {o.id};
    assert RevenueIds(after) == RevenueIds(orders);
    SumTotalsCongruent(after, orders, RevenueIds(orders));
  }

  /** Deleting a cancellable order leaves the revenue as it was. */
  lemma DeleteCancellableKeepsRevenue(orders: map<int, Order>, id: int)
    requires id in orders && CanBeCancelled(orders[id].status)
    ensures Statistics(orders - {id}).totalRevenue == Statistics(orders).totalRevenue
    ensures Statistics(orders - {id}).totalOrders == Statistics(orders).totalOrders - 1
  {
    var after := orders - {id};
    assert RevenueIds(after) == RevenueIds(orders);
    SumTotalsCongruent(after, orders, RevenueIds(orders));
  }

  /** In a table where cancelling deletes the row, the cancelled count is always 0. */
  lemma CancelledNeverCounted(orders: map<int, Order>)
    requires forall id :: id in orders ==> orders[id].status != Cancelled
    ensures Statistics(orders).cancelled == 0
  {
    IndexByStatus(orders, Cancelled);
    assert forall id :: id !in StatusIds(orders, Cancelled);
    assert StatusIds(orders, Cancelled) == {};
  }
}
