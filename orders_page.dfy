/** The decisions orders.js takes on a student's order list: the badge, icon
    and message of a status, the three summary counts and the order-details
    lookup. */
module OrdersPage {
  import opened Errors
  import opened Seqs
  import opened Text
  import opened Model
  import opened Dto
  import opened Html
  import Orders

  // ---- Status presentation ---------------------------------------------------------

  const BADGES: map<string, string> := map[
    "PENDING" := "<span class=\"badge bg-warning text-dark\">Pending</span>",
    "APPROVED" := "<span class=\"badge bg-info\">Approved</span>",
    "COMPLETED" := "<span class=\"badge bg-success\">Completed</span>",
    "DELIVERED" := "<span class=\"badge bg-success\">Delivered</span>",
    "REJECTED" := "<span class=\"badge bg-danger\">Rejected</span>"]
  const UNKNOWN_BADGE := "<span class=\"badge bg-secondary\">Unknown</span>"

  const ICONS: map<string, string> := map[
    "PENDING" := "<i class=\"bi bi-clock-history text-warning\"></i>",
    "APPROVED" := "<i class=\"bi bi-check-circle text-info\"></i>",
    "COMPLETED" := "<i class=\"bi bi-check-circle-fill text-success\"></i>",
    "DELIVERED" := "<i class=\"bi bi-box-seam text-success\"></i>",
    "REJECTED" := "<i class=\"bi bi-x-circle text-danger\"></i>"]
  const UNKNOWN_ICON := "<i class=\"bi bi-question-circle\"></i>"

  const MESSAGES: map<string, string> := map[
    "PENDING" := "Your order is being processed. Please wait for confirmation.",
    "APPROVED" := "Your order has been approved and is being prepared.",
    "COMPLETED" := "Your order is ready for pickup/delivery.",
    "DELIVERED" := "Your order has been delivered. Enjoy your meal!",
    "REJECTED" := "Sorry, your order was rejected. Please contact support."]
  const UNKNOWN_MESSAGE := "Order status unknown."

  /** `getStatusBadge`: the badge of one of the five statuses; the Unknown badge
      exactly for every other string. */
  function StatusBadge(status: string): (r: string)
    ensures r == UNKNOWN_BADGE <==> status !in STATUSES
    ensures status in STATUSES ==> r == BADGES[status]
  {
    Lookup(BADGES, status, UNKNOWN_BADGE)
  }

  /** `getStatusIcon`: likewise, with the question-circle icon as fallback. */
  function StatusIcon(status: string): (r: string)
    ensures r == UNKNOWN_ICON <==> status !in STATUSES
    ensures status in STATUSES ==> r == ICONS[status]
  {
    Lookup(ICONS, status, UNKNOWN_ICON)
  }

  /** `getStatusMessage`: likewise, with 'Order status unknown.' as fallback. */
  function StatusMessage(status: string): (r: string)
    ensures r == UNKNOWN_MESSAGE <==> status !in STATUSES
    ensures status in STATUSES ==> r == MESSAGES[status]
  {
    Lookup(MESSAGES, status, UNKNOWN_MESSAGE)
  }

  /** Each of the five statuses has its own badge, icon and message. */
  lemma PresentationDistinguishesStatuses(a: string, b: string)
    requires a in STATUSES && b in STATUSES && a != b
    ensures StatusBadge(a) != StatusBadge(b)
    ensures StatusIcon(a) != StatusIcon(b)
    ensures StatusMessage(a) != StatusMessage(b)
  {
  }

  /** The lookups are case-sensitive: a lower-case status is unknown to all three. */
  lemma LowerCaseStatusUnknown()
    ensures StatusBadge("pending") == UNKNOWN_BADGE
    ensures StatusIcon("pending") == UNKNOWN_ICON
    ensures StatusMessage("pending") == UNKNOWN_MESSAGE
  {
  }

  /** The page names the same five statuses as the server. */
  lemma StatusListsAgree(s: string)
    ensures s in STATUSES <==> s in Orders.ORDER_STATUSES
  {
  }

  /** A status the server accepts is known to the page once upper-cased;
      only the upper-cased form is. */
  lemma AcceptedStatusesKnown(status: string)
    requires Orders.IsValidStatus(status)
    ensures StatusBadge(ToUpper(status)) != UNKNOWN_BADGE
  {
    StatusListsAgree(ToUpper(status));
  }

  // ---- Summary counts ----------------------------------------------------------------

  /** The three cards above the order table. */
  datatype Summary = Summary(total: nat, pending: nat, completed: nat)

  predicate IsPending(o: OrderDTO) {
    o.status == "PENDING"
  }

  predicate IsCompleted(o: OrderDTO) {
    o.status == "COMPLETED" || o.status == "DELIVERED"
  }

  /** `showOrderSummary`'s counts: all orders, those exactly PENDING, and
      those COMPLETED or DELIVERED. No order is counted twice. */
  function OrderSummary(orders: seq<OrderDTO>): (r: Summary)
    ensures r.total == |orders|
    ensures r.pending + r.completed <= r.total
  {
    var pending := Filter(orders, IsPending);
    var completed := Filter(orders, IsCompleted);
    DisjointCounts(orders, IsPending, IsCompleted);
    Summary(|orders|, |pending|, |completed|)
  }

  /** The summary of one order. */
  lemma SummaryOfOne(o: OrderDTO)
    ensures OrderSummary([o]) ==
      Summary(1, if o.status == "PENDING" then 1 else 0,
        if o.status == "COMPLETED" || o.status == "DELIVERED" then 1 else 0)
  {
    assert [o][1..] == [];
  }

  /** The counts add up over a split of the list; with SummaryOfOne this fixes
      each count as the number of orders with those statuses. */
  lemma SummaryAppend(a: seq<OrderDTO>, b: seq<OrderDTO>)
    ensures var s, t, u := OrderSummary(a + b), OrderSummary(a), OrderSummary(b);
      s.total == t.total + u.total && s.pending == t.pending + u.pending && s.completed == t.completed + u.completed
  {
    FilterAppend(a, b, IsPending);
    FilterAppend(a, b, IsCompleted);
  }

  /** A list of pending orders counts all of them as pending. */
  lemma AllPendingSummary(orders: seq<OrderDTO>)
    requires forall i :: 0 <= i < |orders| ==> orders[i].status == "PENDING"
    ensures OrderSummary(orders) == Summary(|orders|, |orders|, 0)
  {
    FilterAll(orders, IsPending);
    FilterNone(orders, IsCompleted);
  }

  // ---- Order details -------------------------------------------------------------------

  /** The details modal, or the warning shown instead. */
  datatype Details = Shown(order: OrderDTO) | Warned(message: string)

  const NOT_FOUND_WARNING := "Order not found"

  function HasId(id: Id): OrderDTO -> bool {
    (o: OrderDTO) => o.id == id
  }

  /** `showOrderDetails`: the first order with that id, or the 'Order not found'
      warning when none has it. */
  function OrderDetails(orders: seq<OrderDTO>, id: Id): (r: Details)
    ensures r.Warned? <==> forall i :: 0 <= i < |orders| ==> orders[i].id != id
    ensures r.Warned? ==> r.message == NOT_FOUND_WARNING
    ensures forall k :: 0 <= k < |orders| && orders[k].id == id && (forall j :: 0 <= j < k ==> orders[j].id != id) ==>
      r == Shown(orders[k])
  {
    match Find(orders, HasId(id))
    case None => Warned(NOT_FOUND_WARNING)
    case Some(o) => Shown(o)
  }
}
