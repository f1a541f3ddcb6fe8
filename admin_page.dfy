/** The decisions admin.js takes before it renders an order row or sends a
    menu form: the badge colour of a status, which status buttons are
    enabled, the quantity shown, and the add-item and edit checks. */
module AdminPage {
  import opened Errors
  import opened Text
  import opened Model
  import opened Dto
  import opened Repository
  import opened Html
  import Orders

  // ---- Order rows -----------------------------------------------------------------

  const STATUS_CLASSES: map<string, string> := map[
    "PENDING" := "warning", "APPROVED" := "info", "COMPLETED" := "success",
    "DELIVERED" := "success", "REJECTED" := "danger"]

  /** The badge colour of a status; any status outside the five, a lower-case
      one included, is shown as 'secondary'. */
  function StatusClass(status: string): (r: string)
    ensures r == "secondary" <==> status !in STATUSES
    ensures r == "success" <==> status == "COMPLETED" || status == "DELIVERED"
    ensures r == "warning" <==> status == "PENDING"
    ensures r == "danger" <==> status == "REJECTED"
    ensures r == "info" <==> status == "APPROVED"
  {
    Lookup(STATUS_CLASSES, status, "secondary")
  }

  /** The three buttons of a row. */
  datatype Action = Approve | Reject | Deliver

  /** The status a button asks the server to set. */
  function Target(a: Action): string {
    match a
    case Approve => "APPROVED"
    case Reject => "REJECTED"
    case Deliver => "DELIVERED"
  }

  /** Pressing a button: the status it requests, or None when the button is
      disabled. Approve and Reject are enabled only on exactly PENDING, Deliver
      only on exactly APPROVED. */
  function Press(status: string, a: Action): (next: Option<string>)
    ensures next.Some? <==> (status == "PENDING" && a != Deliver) || (status == "APPROVED" && a == Deliver)
    ensures next.Some? ==> next.value == Target(a)
  {
    var enabled := match a
      case Approve => status == "PENDING"
      case Reject => status == "PENDING"
      case Deliver => status == "APPROVED";
    if enabled then Some(Target(a)) else None
  }

  /** Every status a button requests is one the server accepts, and the server
      stores it as it is sent. */
  lemma TargetsAccepted(a: Action)
    ensures Orders.IsValidStatus(Target(a)) && ToUpper(Target(a)) == Target(a)
  {
    assert ToUpper("APPROVED") == "APPROVED";
    assert ToUpper("REJECTED") == "REJECTED";
    assert ToUpper("DELIVERED") == "DELIVERED";
  }

  /** How far along the button workflow a status is. */
  function Stage(status: string): nat {
    if status == "PENDING" then 0 else if status == "APPROVED" then 1 else 2
  }

  /** Every enabled button moves the order strictly forward, so a row takes at
      most two presses before all its buttons are disabled. */
  lemma PressAdvances(status: string, a: Action)
    requires Press(status, a).Some?
    ensures Stage(Press(status, a).value) > Stage(status)
  {
  }

  /** The status a row ends in after a sequence of presses; a press on a
      disabled button does nothing. */
  function PressAll(status: string, actions: seq<Action>): (r: string)
    decreases |actions|
  {
    if |actions| == 0 then status
    else
      var next := Press(status, actions[0]);
      PressAll(if next.Some? then next.value else status, actions[1..])
  }

  /** From PENDING the buttons reach APPROVED, REJECTED and DELIVERED and
      nothing else; COMPLETED is never set from this page. */
  lemma {:induction false} PressAllFromPending(status: string, actions: seq<Action>)
    requires status in ["PENDING", "APPROVED", "REJECTED", "DELIVERED"]
    ensures PressAll(status, actions) in ["PENDING", "APPROVED", "REJECTED", "DELIVERED"]
    decreases |actions|
  {
    if |actions| > 0 {
      var next := Press(status, actions[0]);
      PressAllFromPending(if next.Some? then next.value else status, actions[1..]);
    }
  }

  /** Once a row leaves PENDING and APPROVED no button changes it again; this
      covers REJECTED, DELIVERED, COMPLETED and every unknown status. */
  lemma {:induction false} FinalStatusesStay(status: string, actions: seq<Action>)
    requires status != "PENDING" && status != "APPROVED"
    ensures PressAll(status, actions) == status
    decreases |actions|
  {
    if |actions| > 0 {
      FinalStatusesStay(status, actions[1..]);
    }
  }

  /** A lower-case status has every button disabled, exactly-PENDING is needed. */
  lemma LowerCasePendingDisabled(a: Action)
    ensures Press("pending", a).None?
  {
  }

  /** The buttons are only a page rule: the server moves a DELIVERED order back
      to PENDING when asked, which no button of this page offers. */
  lemma ServerAllowsWhatButtonsRefuse(db: Db, orderId: Id)
    requires OrderById(db.orders, orderId).Some? && OrderById(db.orders, orderId).value.status == "DELIVERED"
    ensures forall a :: Press("DELIVERED", a).None?
    ensures Orders.UpdateOrderStatusOn(db, orderId, "PENDING").after ==
      PutOrder(db, OrderById(db.orders, orderId).value.(status := "PENDING"))
  {
    assert ToUpper("PENDING") == "PENDING";
  }

  /** `o.quantity || 1`: zero or absent is shown as 1, any other value as it is. */
  function DisplayQuantity(quantity: Option<int>): (r: int)
    ensures r != 0
    ensures quantity.Some? && quantity.value != 0 ==> r == quantity.value
    ensures quantity.None? || quantity.value == 0 ==> r == 1
  {
    if quantity.Some? && quantity.value != 0 then quantity.value else 1
  }

  /** A DTO built by the four-argument constructor has quantity 0 and so is
      shown with quantity 1, whatever was ordered. */
  lemma FourFieldDtoShowsOne(id: Id, itemName: string, status: string, username: string)
    ensures DisplayQuantity(Some(OrderDto4(id, itemName, status, username).quantity)) == 1
  {
  }

  /** A DTO projected from a stored order shows its quantity, when it is at least 1. */
  lemma ProjectedQuantityShown(o: Order, users: seq<User>, items: seq<MenuItem>)
    requires OrderDtoOf(o, users, items).Ok? && o.quantity >= 1
    ensures DisplayQuantity(Some(OrderDtoOf(o, users, items).value.quantity)) == o.quantity
  {
  }

  // ---- Menu forms -----------------------------------------------------------------

  const NAME_LENGTH_WARNING := "Item name must be between 2 and 100 characters"
  const DESCRIPTION_LENGTH_WARNING := "Description must not exceed 500 characters"
  const PRICE_WARNING := "Price must be greater than 0"
  const REQUIRED_FIELDS_WARNING := "Please fill in all required fields correctly"

  /** `parseFloat(price) <= 0`; None stands for NaN, which compares false, so
      an unparsable price is not refused. */
  predicate PriceRefused(price: Option<real>) {
    price.Some? && price.value <= 0.0
  }

  /** The add-item form: after trimming, the name needs 2 to 100 characters, the
      description at most 500, and the price must not be zero or negative;
      the first check that fails gives the warning. */
  function AddItemCheck(name: string, description: string, price: Option<real>): (r: Notice)
    ensures r.Accept? <==>
      2 <= |Trim(name, JsSpace)| <= 100 && |Trim(description, JsSpace)| <= 500 && !PriceRefused(price)
    ensures !(2 <= |Trim(name, JsSpace)| <= 100) ==> r == Warn(NAME_LENGTH_WARNING)
    ensures 2 <= |Trim(name, JsSpace)| <= 100 && |Trim(description, JsSpace)| > 500 ==> r == Warn(DESCRIPTION_LENGTH_WARNING)
    ensures 2 <= |Trim(name, JsSpace)| <= 100 && |Trim(description, JsSpace)| <= 500 && PriceRefused(price) ==> r == Warn(PRICE_WARNING)
    ensures r.Warn? ==> r.message in [NAME_LENGTH_WARNING, DESCRIPTION_LENGTH_WARNING, PRICE_WARNING]
  {
    var n := Trim(name, JsSpace);
    var d := Trim(description, JsSpace);
    if |n| < 2 || |n| > 100 then Warn(NAME_LENGTH_WARNING)
    else if |d| > 500 then Warn(DESCRIPTION_LENGTH_WARNING)
    else if PriceRefused(price) then Warn(PRICE_WARNING)
    else Accept
  }

  /** An accepted add-item form posts the trimmed name and description with a
      price the server also accepts, as long as the price is at least 0.01 and
      every character of the name up to U+0020 is one that trimming removes. */
  lemma AcceptedFormServerValid(name: string, description: string, price: Option<real>)
    requires AddItemCheck(name, description, price).Accept?
    requires price.Some? && price.value >= 0.01
    requires forall i :: 0 <= i < |name| && name[i] <= ' ' ==> JsSpace(name[i])
    ensures MenuItemFieldsValid(Trim(name, JsSpace), Some(Trim(description, JsSpace)), price)
  {
    var n := Trim(name, JsSpace);
    assert n[0] in name;
    var i :| 0 <= i < |name| && name[i] == n[0];
    assert !JsSpace(n[0]);
    NotBlankMeansVisibleChar(n);
  }

  /** The client and server checks differ: a price of 0.005 passes the form
      and is below the entity's inclusive minimum of 0.01. */
  lemma FormAcceptsTinyPrice()
    ensures AddItemCheck("Pizza", "", Some(0.005)).Accept? && !PriceValid(Some(0.005))
  {
    TrimUntouched("Pizza", JsSpace);
  }

  /** An unparsable price passes the form and reaches the server as null. */
  lemma FormAcceptsUnparsablePrice()
    ensures AddItemCheck("Pizza", "", None).Accept? && !PriceValid(None)
  {
    TrimUntouched("Pizza", JsSpace);
  }

  /** A name of two control characters survives the JavaScript trim and is
      blank to the entity's check. */
  lemma FormAcceptsControlCharacters()
    ensures AddItemCheck("\U{1}\U{1}", "", Some(1.0)).Accept? && !NameValid(Trim("\U{1}\U{1}", JsSpace))
  {
    var odd := "\U{1}\U{1}";
    TrimUntouched(odd, JsSpace);
    NotBlankMeansVisibleChar(odd);
  }

  /** The edit form: the trimmed name must not be empty and the price must not
      be zero or negative; both failures give the same warning. */
  function EditCheck(name: string, price: Option<real>): (r: Notice)
    ensures r.Accept? <==> |Trim(name, JsSpace)| > 0 && !PriceRefused(price)
    ensures r.Warn? ==> r.message == REQUIRED_FIELDS_WARNING
  {
    if |Trim(name, JsSpace)| == 0 || PriceRefused(price) then Warn(REQUIRED_FIELDS_WARNING) else Accept
  }

  /** Everything the add form accepts the edit form accepts too; the edit
      form lets through a one-letter name that the add form refuses. */
  lemma EditLooserThanAdd(name: string, description: string, price: Option<real>)
    ensures AddItemCheck(name, description, price).Accept? ==> EditCheck(name, price).Accept?
    ensures EditCheck("A", Some(1.0)).Accept? && !AddItemCheck("A", "", Some(1.0)).Accept?
  {
    TrimUntouched("A", JsSpace);
  }
}
