/**
 * The order aggregate of app/Order.php: the five statuses, the transition
 * table behind canTransitionTo, canBeCancelled and calculateTotal.
 * Money is kept as integer cents, so round(..., 2) is the identity.
 */
module OrderModel {
  import opened Wrappers

  datatype Status = Pending | Processing | Shipped | Delivered | Cancelled

  /** The string stored in the `status` column for a status. */
  function Name(s: Status): string {
    match s
    case Pending => "pending"
    case Processing => "processing"
    case Shipped => "shipped"
    case Delivered => "delivered"
    case Cancelled => "cancelled"
  }

  /** Reads a status name back; None for every string that names no status. */
  function Parse(name: string): (r: Option<Status>)
    ensures r.Some? ==> Name(r.value) == name
    ensures r.None? ==> forall s :: Name(s) != name
  {
    if name == "pending" then Some(Pending)
    else if name == "processing" then Some(Processing)
    else if name == "shipped" then Some(Shipped)
    else if name == "delivered" then Some(Delivered)
    else if name == "cancelled" then Some(Cancelled)
    else None
  }

  /** Each status name reads back as its status, so two statuses never share a name. */
  lemma NameRoundTrip(s: Status)
    ensures Parse(Name(s)) == Some(s)
    ensures forall t :: Name(t) == Name(s) ==> t == s
  {
  }

  /** Order::getValidStatuses: the names of the five statuses. */
  function ValidStatuses(): (r: seq<string>)
    ensures |r| == 5
    ensures forall i, j :: 0 <= i < j < |r| ==> r[i] != r[j]
    ensures forall name :: name in r <==> Parse(name).Some?
  {
    [Name(Pending), Name(Processing), Name(Shipped), Name(Delivered), Name(Cancelled)]
  }

  /** The transition table, one row per status. */
  function Successors(s: Status): set<Status> {
    match s
    case Pending => {Processing, Cancelled}
    case Processing => {Shipped, Cancelled}
    case Shipped => {Delivered}
    case Delivered => {}
    case Cancelled => {}
  }

  /** Position along the forward chain pending -> processing -> shipped -> delivered. */
  function Progress(s: Status): nat {
    match s
    case Pending => 0
    case Processing => 1
    case Shipped => 2
    case Delivered => 3
    case Cancelled => 3
  }

  /** A legal status change, read from the transition table. */
  predicate CanTransition(from: Status, to: Status)
    ensures CanTransition(from, to) ==> from != to
    ensures CanTransition(from, to) ==> Progress(from) < Progress(to)
    ensures from == Delivered || from == Cancelled ==> !CanTransition(from, to)
    ensures to == Cancelled ==> (CanTransition(from, to) <==> from == Pending || from == Processing)
    ensures to != Cancelled ==>
      (CanTransition(from, to) <==> from != Cancelled && Progress(to) == Progress(from) + 1)
  {
    to in Successors(from)
  }

  /** The table as canTransitionTo builds it, keyed by status name. */
  function TransitionTable(): map<string, seq<string>> {
    map[
      "pending" := ["processing", "cancelled"],
      "processing" := ["shipped", "cancelled"],
      "shipped" := ["delivered"],
      "delivered" := [],
      "cancelled" := []
    ]
  }

  /**
   * Order::canTransitionTo on the stored status string: a current status
   * that is not a key of the table has no legal transition (`?? []`).
   */
  function CanTransitionTo(current: string, newStatus: string): (r: bool)
    ensures r <==> Parse(current).Some? && Parse(newStatus).Some?
                   && CanTransition(Parse(current).value, Parse(newStatus).value)
  {
    var allowed := if current in TransitionTable() then TransitionTable()[current] else [];
    newStatus in allowed
  }

  /** Order::canBeCancelled: the status is pending or processing. */
  predicate CanBeCancelled(s: Status)
    ensures CanBeCancelled(s) <==> CanTransition(s, Cancelled)
    ensures CanBeCancelled(s) <==> CanTransitionTo(Name(s), Name(Cancelled))
  {
    s in [Pending, Processing]
  }

  /**
   * One element of the `items` JSON column. calculateTotal reads `price` and
   * `quantity` with a default of 0, so both keys may be absent.
   */
  datatype LineItem = LineItem(bookId: int, title: string, quantity: Option<int>, price: Option<int>, subtotal: int)

  /** What calculateTotal adds for one item: price times quantity, a missing key counting as 0. */
  function Amount(item: LineItem): int {
    item.price.GetOr(0) * item.quantity.GetOr(0)
  }

  predicate NonNegativeAmounts(items: seq<LineItem>) {
    forall i :: 0 <= i < |items| ==> items[i].price.GetOr(0) >= 0 && items[i].quantity.GetOr(0) >= 0
  }

  /** Order::calculateTotal: the fold of Amount over the items, in order. */
  function CalculateTotal(items: seq<LineItem>): (total: int)
    ensures items == [] ==> total == 0
    ensures NonNegativeAmounts(items) ==> total >= 0
    decreases |items|
  {
    if items == [] then 0
    else CalculateTotal(items[..|items| - 1]) + Amount(items[|items| - 1])
  }

  /** The sum of the stored `subtotal` fields. */
  function SumSubtotals(items: seq<LineItem>): int
    decreases |items|
  {
    if items == [] then 0
    else SumSubtotals(items[..|items| - 1]) + items[|items| - 1].subtotal
  }

  /** The total of a concatenation is the sum of the totals. */
  lemma {:induction false} CalculateTotalAppend(a: seq<LineItem>, b: seq<LineItem>)
    ensures CalculateTotal(a + b) == CalculateTotal(a) + CalculateTotal(b)
    decreases |b|
  {
    if b == [] {
      assert a + b == a;
    } else {
      var b' := b[..|b| - 1];
      assert (a + b)[..|a + b| - 1] == a + b';
      CalculateTotalAppend(a, b');
    }
  }

  /** When every subtotal is price times quantity, the stored total equals calculateTotal. */
  lemma {:induction false} SubtotalsMatchCalculateTotal(items: seq<LineItem>)
    requires forall i :: 0 <= i < |items| ==> items[i].subtotal == Amount(items[i])
    ensures SumSubtotals(items) == CalculateTotal(items)
    decreases |items|
  {
    if items != [] {
      SubtotalsMatchCalculateTotal(items[..|items| - 1]);
    }
  }

  /** A persisted order. `notes` is nullable; money is in cents. */
  datatype Order = Order(
    id: int,
    userId: int,
    status: Status,
    total: int,
    items: seq<LineItem>,
    shippingAddress: string,
    notes: Option<string>
  )

  /** The order invariant: some items, and a total that agrees with calculateTotal. */
  predicate WellFormed(o: Order) {
    |o.items| > 0 && o.total == CalculateTotal(o.items) && o.total >= 0
  }

  /** A sequence of statuses each reached from the previous by a legal transition. */
  predicate IsRun(p: seq<Status>) {
    forall i :: 0 <= i < |p| - 1 ==> CanTransition(p[i], p[i + 1])
  }

  /** Along a run, every step moves strictly forward. */
  lemma {:induction false} RunAdvances(p: seq<Status>, i: nat, j: nat)
    requires IsRun(p) && i <= j < |p|
    ensures Progress(p[j]) >= Progress(p[i]) + (j - i)
    decreases j - i
  {
    if i < j {
      RunAdvances(p, i, j - 1);
      assert CanTransition(p[j - 1], p[j]);
    }
  }

  /** The lifecycle has no cycles: a run never visits a status twice. */
  lemma RunNeverRepeats(p: seq<Status>)
    requires IsRun(p)
    ensures forall i, j :: 0 <= i < j < |p| ==> p[i] != p[j]
  {
    forall i, j | 0 <= i < j < |p|
      ensures p[i] != p[j]
    {
      RunAdvances(p, i, j);
    }
  }

  /** Every run holds at most four statuses, e.g. pending, processing, shipped, delivered. */
  lemma RunsAreShort(p: seq<Status>)
    requires IsRun(p)
    ensures |p| <= 4
  {
    if |p| > 0 {
      RunAdvances(p, 0, |p| - 1);
    }
  }

  /** A run that reaches delivered or cancelled ends there. */
  lemma TerminalEndsRun(p: seq<Status>, i: nat)
    requires IsRun(p) && i < |p|
    requires p[i] == Delivered || p[i] == Cancelled
    ensures i == |p| - 1
  {
    assert i < |p| - 1 ==> CanTransition(p[i], p[i + 1]);
  }

  /** Every status is reachable from pending, the status a new order starts in. */
  lemma EveryStatusReachable(s: Status)
    ensures exists p :: IsRun(p) && |p| > 0 && p[0] == Pending && p[|p| - 1] == s
  {
    var p := match s
      case Pending => [Pending]
      case Processing => [Pending, Processing]
      case Shipped => [Pending, Processing, Shipped]
      case Delivered => [Pending, Processing, Shipped, Delivered]
      case Cancelled => [Pending, Cancelled];
    assert IsRun(p);
  }
}
