/**
 * The inventory side of app/Services/BookService.php: checkBookAvailability
 * and validateInventory. The catalog fetch (obtainBook) is an oracle: it
 * yields the book, or None where the remote call throws.
 */
module BookService {
  import opened Wrappers
  import opened Text

  /** What the catalog reports for a book; either key may be absent. */
  datatype Book = Book(title: Option<string>, stock: Option<int>)

  /** obtainBook as a function of the id; None stands for "the request threw". */
  type Catalog = int -> Option<Book>

  /** The array checkBookAvailability returns. */
  datatype Availability = Availability(bookExists: bool, hasStock: bool, book: Option<Book>)

  /** A known stock covers the quantity; an unknown stock always does. */
  predicate Covers(book: Book, quantity: int) {
    book.stock.None? || book.stock.value >= quantity
  }

  /** BookService::checkBookAvailability. */
  function CheckBookAvailability(catalog: Catalog, bookId: int, quantity: int): (a: Availability)
    ensures a.bookExists <==> catalog(bookId).Some?
    ensures !a.bookExists ==> !a.hasStock && a.book == None
    ensures a.bookExists ==> a.book == catalog(bookId) && (a.hasStock <==> Covers(catalog(bookId).value, quantity))
  {
    match catalog(bookId)
    case None => Availability(false, false, None)
    case Some(book) =>
      var hasStock := if book.stock.Some? then book.stock.value >= quantity else true;
      Availability(true, hasStock, Some(book))
  }

  /** One requested line: `book_id` and `quantity` may be absent or null. */
  datatype Item = Item(bookId: Option<int>, quantity: Option<int>, price: Option<int>)

  /** `!$bookId`: an absent or zero id. */
  predicate MissingId(item: Item) {
    item.bookId.None? || item.bookId.value == 0
  }

  /** The quantity validateInventory checks: 1 when absent. */
  function Requested(item: Item): int {
    item.quantity.GetOr(1)
  }

  /** The error messages validateInventory collects. */
  datatype InventoryError =
    | MissingBookId
    | BookNotFound(bookId: int)
    | InsufficientStock(bookId: int, available: int, requested: int)

  /** What one pass of the loop does with one line: record an error, or store the book. */
  datatype Outcome = Rejected(error: InventoryError) | Accepted(bookId: int, book: Book)

  /** The body of validateInventory's loop for one item. */
  function Evaluate(catalog: Catalog, item: Item): (o: Outcome)
    ensures o == Rejected(MissingBookId) <==> MissingId(item)
    ensures o.Rejected? && o.error.BookNotFound? <==> !MissingId(item) && catalog(item.bookId.value).None?
    ensures o.Rejected? && o.error.BookNotFound? ==> o.error.bookId == item.bookId.value
    ensures o.Rejected? && o.error.InsufficientStock? <==>
      !MissingId(item) && catalog(item.bookId.value).Some? && !Covers(catalog(item.bookId.value).value, Requested(item))
    ensures o.Rejected? && o.error.InsufficientStock? ==>
      && o.error.bookId == item.bookId.value
      && o.error.requested == Requested(item)
      && catalog(item.bookId.value).value.stock == Some(o.error.available)
      && o.error.available < o.error.requested
    ensures o.Accepted? ==>
      && item.bookId == Some(o.bookId) && o.bookId != 0
      && catalog(o.bookId) == Some(o.book) && Covers(o.book, Requested(item))
  {
    if MissingId(item) then Rejected(MissingBookId)
    else
      var bookId := item.bookId.value;
      var quantity := Requested(item);
      var availability := CheckBookAvailability(catalog, bookId, quantity);
      if !availability.bookExists then Rejected(BookNotFound(bookId))
      else if !availability.hasStock then
        Rejected(InsufficientStock(bookId, availability.book.value.stock.GetOr(0), quantity))
      else Accepted(bookId, availability.book.value)
  }

  /** The array validateInventory returns. */
  datatype Validation = Validation(valid: bool, errors: seq<InventoryError>, books: map<int, Book>)

  /** One iteration of the loop applied to the accumulated result. */
  function Step(v: Validation, o: Outcome): Validation {
    match o
    case Rejected(e) => Validation(false, v.errors + [e], v.books)
    case Accepted(bookId, book) => Validation(v.valid, v.errors, v.books[bookId := book])
  }

  /** validateInventory as a left fold of Step over the items, in order, none skipped. */
  function Validate(catalog: Catalog, items: seq<Item>): Validation
    decreases |items|
  {
    if items == [] then Validation(true, [], map[])
    else Step(Validate(catalog, items[..|items| - 1]), Evaluate(catalog, items[|items| - 1]))
  }

  /** Some line of `items` has id `bookId`. */
  predicate IdOfSomeLine(items: seq<Item>, bookId: int) {
    exists i :: 0 <= i < |items| && !MissingId(items[i]) && items[i].bookId.value == bookId
  }

  /** How many lines lack a book id. */
  function MissingCount(items: seq<Item>): nat
    decreases |items|
  {
    if items == [] then 0
    else MissingCount(items[..|items| - 1]) + (if MissingId(items[|items| - 1]) then 1 else 0)
  }

  /** The ids the loop asks the catalog about, in order: every item that has an id. */
  function QueriedIds(items: seq<Item>): (ids: seq<int>)
    ensures |ids| <= |items|
    ensures forall k :: 0 <= k < |ids| ==> ids[k] != 0
    ensures forall i :: 0 <= i < |items| && !MissingId(items[i]) ==> items[i].bookId.value in ids
    ensures forall k :: 0 <= k < |ids| ==> IdOfSomeLine(items, ids[k])
    ensures |ids| + MissingCount(items) == |items|
    decreases |items|
  {
    if items == [] then []
    else
      var last := items[|items| - 1];
      QueriedIds(items[..|items| - 1]) + (if MissingId(last) then [] else [last.bookId.value])
  }

  /** One line is looked up under its id when it has one, and not at all otherwise. */
  lemma QueriedIdsSingle(item: Item)
    ensures QueriedIds([item]) == if MissingId(item) then [] else [item.bookId.value]
  {
    assert [item][..0] == [];
  }

  /** The lookups of two runs of lines put together are those of the first run, then those of the second. */
  lemma {:induction false} QueriedIdsAppend(a: seq<Item>, b: seq<Item>)
    ensures QueriedIds(a + b) == QueriedIds(a) + QueriedIds(b)
    decreases |b|
  {
    if b == [] {
      assert a + b == a;
    } else {
      var front := b[..|b| - 1];
      assert (a + b)[..|a + b| - 1] == a + front;
      assert (a + b)[|a + b| - 1] == b[|b| - 1];
      QueriedIdsAppend(a, front);
    }
  }

  /** BookService::validateInventory: walks every item, collecting errors and the books that pass. */
  method ValidateInventory(catalog: Catalog, items: seq<Item>) returns (v: Validation, queried: seq<int>)
    ensures v == Validate(catalog, items)
    ensures queried == QueriedIds(items)
  {
    var errors: seq<InventoryError> := [];
    var books: map<int, Book> := map[];
    var valid := true;
    queried := [];
    var i := 0;
    while i < |items|
      invariant 0 <= i <= |items|
      invariant Validation(valid, errors, books) == Validate(catalog, items[..i])
      invariant queried == QueriedIds(items[..i])
    {
      var item := items[i];
      assert items[..i + 1][..i] == items[..i];
      if MissingId(item) {
        errors := errors + [MissingBookId];
        valid := false;
      } else {
        var bookId := item.bookId.value;
        var quantity := Requested(item);
        queried := queried + [bookId];
        var availability := CheckBookAvailability(catalog, bookId, quantity);
        if !availability.bookExists {
          errors := errors + [BookNotFound(bookId)];
          valid := false;
        } else if !availability.hasStock {
          var stock := availability.book.value.stock.GetOr(0);
          errors := errors + [InsufficientStock(bookId, stock, quantity)];
          valid := false;
        } else {
          books := books[bookId := availability.book.value];
        }
      }
      i := i + 1;
    }
    assert items[..i] == items;
    v := Validation(valid, errors, books);
  }

  /** `valid` is true exactly when no error was recorded. */
  lemma {:induction false} ValidIffNoErrors(catalog: Catalog, items: seq<Item>)
    ensures Validate(catalog, items).valid <==> Validate(catalog, items).errors == []
    decreases |items|
  {
    if items != [] {
      ValidIffNoErrors(catalog, items[..|items| - 1]);
    }
  }

  /** The errors of the per-item outcomes, in item order. */
  function ErrorsOf(outcomes: seq<Outcome>): (errors: seq<InventoryError>)
    ensures |errors| <= |outcomes|
    decreases |outcomes|
  {
    if outcomes == [] then []
    else (if outcomes[0].Rejected? then [outcomes[0].error] else []) + ErrorsOf(outcomes[1..])
  }

  /** How many outcomes store a book. */
  function AcceptedCount(outcomes: seq<Outcome>): nat
    decreases |outcomes|
  {
    if outcomes == [] then 0
    else (if outcomes[0].Accepted? then 1 else 0) + AcceptedCount(outcomes[1..])
  }

  /** Each item evaluated on its own. */
  function Outcomes(catalog: Catalog, items: seq<Item>): (os: seq<Outcome>)
    ensures |os| == |items|
    ensures forall i :: 0 <= i < |items| ==> os[i] == Evaluate(catalog, items[i])
  {
    seq(|items|, i requires 0 <= i < |items| => Evaluate(catalog, items[i]))
  }

  lemma {:induction false} ErrorsOfAppend(a: seq<Outcome>, o: Outcome)
    ensures ErrorsOf(a + [o]) == ErrorsOf(a) + (if o.Rejected? then [o.error] else [])
    ensures AcceptedCount(a + [o]) == AcceptedCount(a) + (if o.Accepted? then 1 else 0)
    decreases |a|
  {
    if a == [] {
      assert [] + [o] == [o];
      assert [o][1..] == [];
    } else {
      assert (a + [o])[1..] == a[1..] + [o];
      ErrorsOfAppend(a[1..], o);
    }
  }

  /**
   * Every item is evaluated and contributes exactly one thing: the errors are
   * those of the rejected items in item order, and every other item stored a book.
   */
  lemma {:induction false} EachItemContributesOnce(catalog: Catalog, items: seq<Item>)
    ensures Validate(catalog, items).errors == ErrorsOf(Outcomes(catalog, items))
    ensures |Validate(catalog, items).errors| + AcceptedCount(Outcomes(catalog, items)) == |items|
    decreases |items|
  {
    if items != [] {
      var init := items[..|items| - 1];
      EachItemContributesOnce(catalog, init);
      assert Outcomes(catalog, items) == Outcomes(catalog, init) + [Evaluate(catalog, items[|items| - 1])];
      ErrorsOfAppend(Outcomes(catalog, init), Evaluate(catalog, items[|items| - 1]));
    }
  }

  /** Some line with this id was accepted. */
  predicate AcceptedSomewhere(catalog: Catalog, items: seq<Item>, id: int) {
    exists i :: 0 <= i < |items| && Evaluate(catalog, items[i]).Accepted? && Evaluate(catalog, items[i]).bookId == id
  }

  /**
   * `books` holds exactly the ids of the accepted items, each with the book
   * the catalog returned for it; a later line with the same id overwrites it.
   */
  lemma {:induction false} BooksAreAcceptedLines(catalog: Catalog, items: seq<Item>)
    ensures forall id :: id in Validate(catalog, items).books <==> AcceptedSomewhere(catalog, items, id)
    ensures forall id :: id in Validate(catalog, items).books ==>
      catalog(id) == Some(Validate(catalog, items).books[id]) && id != 0
    decreases |items|
  {
    if items != [] {
      var init := items[..|items| - 1];
      BooksAreAcceptedLines(catalog, init);
      forall id | AcceptedSomewhere(catalog, init, id)
        ensures AcceptedSomewhere(catalog, items, id)
      {
        var i :| 0 <= i < |init| && Evaluate(catalog, init[i]).Accepted? && Evaluate(catalog, init[i]).bookId == id;
        assert init[i] == items[i];
      }
      forall id | AcceptedSomewhere(catalog, items, id)
        ensures id in Validate(catalog, items).books
      {
        var i :| 0 <= i < |items| && Evaluate(catalog, items[i]).Accepted? && Evaluate(catalog, items[i]).bookId == id;
        if i < |init| {
          assert init[i] == items[i];
          assert AcceptedSomewhere(catalog, init, id);
        }
      }
      forall id | id in Validate(catalog, items).books
        ensures AcceptedSomewhere(catalog, items, id)
      {
        var last := Evaluate(catalog, items[|items| - 1]);
        if !(last.Accepted? && last.bookId == id) {
          assert AcceptedSomewhere(catalog, init, id);
        }
      }
    }
  }

  /** A valid result means every line had an id, a catalog entry, enough stock and a stored book. */
  lemma {:induction false} ValidMeansEveryLineStored(catalog: Catalog, items: seq<Item>)
    requires Validate(catalog, items).valid
    ensures forall i :: 0 <= i < |items| ==>
      && !MissingId(items[i])
      && items[i].bookId.value in Validate(catalog, items).books
      && catalog(items[i].bookId.value) == Some(Validate(catalog, items).books[items[i].bookId.value])
      && Covers(Validate(catalog, items).books[items[i].bookId.value], Requested(items[i]))
  {
    ValidIffNoErrors(catalog, items);
    EachItemContributesOnce(catalog, items);
    BooksAreAcceptedLines(catalog, items);
    forall i | 0 <= i < |items|
      ensures Evaluate(catalog, items[i]).Accepted?
    {
      NoErrorsMeansAccepted(Outcomes(catalog, items), i);
    }
  }

  lemma {:induction false} NoErrorsMeansAccepted(outcomes: seq<Outcome>, i: nat)
    requires ErrorsOf(outcomes) == [] && i < |outcomes|
    ensures outcomes[i].Accepted?
    decreases i
  {
    if i > 0 {
      NoErrorsMeansAccepted(outcomes[1..], i - 1);
    }
  }

  /** The text validateInventory stores for each error. */
  function Message(e: InventoryError): string {
    match e
    case MissingBookId => "Missing book_id in item"
    case BookNotFound(bookId) => "Book with ID " + IntToString(bookId) + " does not exist"
    case InsufficientStock(bookId, available, requested) =>
      "Insufficient stock for book ID " + IntToString(bookId) + ". Available: " + IntToString(available)
      + ", Requested: " + IntToString(requested)
  }

  /** Each error text names the numbers of its error: the id, and the stock and quantity that fell short. */
  lemma MessageNamesItsNumbers(e: InventoryError)
    ensures e.MissingBookId? ==> Message(e) == "Missing book_id in item"
    ensures e.BookNotFound? ==> Contains(Message(e), IntToString(e.bookId))
    ensures e.InsufficientStock? ==>
      Contains(Message(e), IntToString(e.bookId))
      && Contains(Message(e), IntToString(e.available))
      && Contains(Message(e), IntToString(e.requested))
  {
    match e
    case MissingBookId =>
    case BookNotFound(bookId) =>
      ContainsSuffix("Book with ID ", IntToString(bookId));
      ContainsExtend("Book with ID " + IntToString(bookId), IntToString(bookId), " does not exist");
    case InsufficientStock(bookId, available, requested) =>
      var id, a, r := IntToString(bookId), IntToString(available), IntToString(requested);
      var head := "Insufficient stock for book ID ";
      ContainsSuffix(head, id);
      ContainsExtend(head + id, id, ". Available: ");
      ContainsExtend(head + id + ". Available: ", id, a);
      ContainsSuffix(head + id + ". Available: ", a);
      ContainsExtend(head + id + ". Available: " + a, id, ", Requested: ");
      ContainsExtend(head + id + ". Available: " + a, a, ", Requested: ");
      ContainsExtend(head + id + ". Available: " + a + ", Requested: ", id, r);
      ContainsExtend(head + id + ". Available: " + a + ", Requested: ", a, r);
      ContainsSuffix(head + id + ". Available: " + a + ", Requested: ", r);
  }
}
