/** OrderService: placing orders, the three order listings, status updates
    with their validity check, and the order lookup. */
module Orders {
  import opened Errors
  import opened Seqs
  import opened Text
  import opened Model
  import opened Dto
  import opened Repository
  import Users
  import Menus

  // ---- Projections of several orders ---------------------------------------

  /** The projections of `os` in order; the first order whose references do
      not resolve makes the whole listing fail. */
  function ProjectAll(os: seq<Order>, users: seq<User>, items: seq<MenuItem>): (r: Result<seq<OrderDTO>>)
    ensures r.Ok? <==> forall i :: 0 <= i < |os| ==> OrderDtoOf(os[i], users, items).Ok?
    ensures r.Ok? ==> |r.value| == |os| && forall i :: 0 <= i < |os| ==> OrderDtoOf(os[i], users, items) == Ok(r.value[i])
    ensures r.Err? ==> exists i :: 0 <= i < |os| && OrderDtoOf(os[i], users, items) == Err(r.error)
  {
    if |os| == 0 then Ok([])
    else
      match OrderDtoOf(os[0], users, items)
      case Err(e) => Err(e)
      case Ok(d) =>
        match ProjectAll(os[1..], users, items)
        case Err(e) => Err(e)
        case Ok(rest) => Ok([d] + rest)
  }

  /** Selects the orders of one user. */
  function ByUser(userId: Id): Order -> bool {
    (o: Order) => o.user == userId
  }

  /** Selects the orders with one exact status string. */
  function WithStatus(status: string): Order -> bool {
    (o: Order) => o.status == status
  }

  /** `findByUserId`: the orders that reference the user, in store order. */
  function OrdersOfUser(orders: seq<Order>, userId: Id): (r: seq<Order>)
    ensures forall i :: 0 <= i < |r| ==> r[i] in orders && r[i].user == userId
    ensures forall j :: 0 <= j < |orders| && orders[j].user == userId ==> orders[j] in r
  {
    Filter(orders, ByUser(userId))
  }

  /** `findByStatus`: the orders whose status equals `status` exactly, in store order. */
  function OrdersWithStatus(orders: seq<Order>, status: string): (r: seq<Order>)
    ensures forall i :: 0 <= i < |r| ==> r[i] in orders && r[i].status == status
    ensures forall j :: 0 <= j < |orders| && orders[j].status == status ==> orders[j] in r
  {
    Filter(orders, WithStatus(status))
  }

  // ---- Queries ------------------------------------------------------------

  /** `findById`: the stored order or OrderNotFound(id). */
  function FindOrderById(orders: seq<Order>, id: Id): (r: Result<Order>)
    ensures r.Ok? <==> exists i :: 0 <= i < |orders| && orders[i].id == id
    ensures r.Ok? ==> r.value in orders && r.value.id == id
    ensures r.Err? ==> r.error == OrderNotFound(id)
  {
    match OrderById(orders, id)
    case None => Err(OrderNotFound(id))
    case Some(o) => Ok(o)
  }

  /** `getOrdersByUserId`: UserNotFound for an unknown user, even when stored
      orders reference that id; otherwise the projections of that user's
      orders, all of which carry that user's name. */
  function GetOrdersByUserId(db: Db, userId: Id): (r: Result<seq<OrderDTO>>)
    ensures UserById(db.users, userId).None? ==> r == Err(UserNotFound(userId, "id"))
    ensures UserById(db.users, userId).Some? ==>
      (r.Ok? <==> forall j :: 0 <= j < |db.orders| && db.orders[j].user == userId ==> OrderDtoOf(db.orders[j], db.users, db.menuItems).Ok?)
    ensures r.Ok? ==> var os := OrdersOfUser(db.orders, userId);
      |r.value| == |os| && forall i :: 0 <= i < |os| ==> OrderDtoOf(os[i], db.users, db.menuItems) == Ok(r.value[i])
    ensures r.Ok? ==> forall i :: 0 <= i < |r.value| ==> r.value[i].username == UserById(db.users, userId).value.username
  {
    match Users.FindUserById(db.users, userId)
    case Err(e) => Err(e)
    case Ok(_) =>
      var r := ProjectAll(OrdersOfUser(db.orders, userId), db.users, db.menuItems);
      assert r.Ok? ==> forall i :: 0 <= i < |r.value| ==> OrdersOfUser(db.orders, userId)[i].user == userId;
      r
  }

  /** `getAllOrders`: one projection per stored order, in store order, with
      the item name and username read through the references. */
  function GetAllOrders(db: Db): (r: Result<seq<OrderDTO>>)
    ensures r.Ok? <==> forall i :: 0 <= i < |db.orders| ==> ItemById(db.menuItems, db.orders[i].menuItem).Some? && UserById(db.users, db.orders[i].user).Some?
    ensures r.Ok? ==> |r.value| == |db.orders|
    ensures r.Ok? ==> forall i :: 0 <= i < |db.orders| ==>
      && r.value[i].id == db.orders[i].id && r.value[i].status == db.orders[i].status
      && r.value[i].quantity == db.orders[i].quantity
      && r.value[i].itemName == ItemById(db.menuItems, db.orders[i].menuItem).value.name
      && r.value[i].username == UserById(db.users, db.orders[i].user).value.username
  {
    ProjectAll(db.orders, db.users, db.menuItems)
  }

  /** In a valid store the listing of all orders fails exactly when some
      order's menu item has been deleted. */
  lemma GetAllOrdersFailsOnlyForDeletedItems(db: Db)
    requires ValidDb(db)
    ensures GetAllOrders(db).Ok? <==> forall i :: 0 <= i < |db.orders| ==> ItemById(db.menuItems, db.orders[i].menuItem).Some?
  {
  }

  /** `getPendingOrders`: the projections of the orders whose status is
      "PENDING", compared case-sensitively. */
  function GetPendingOrders(db: Db): (r: Result<seq<OrderDTO>>)
    ensures r.Ok? <==> forall j :: 0 <= j < |db.orders| && db.orders[j].status == "PENDING" ==> OrderDtoOf(db.orders[j], db.users, db.menuItems).Ok?
    ensures r.Ok? ==> var os := OrdersWithStatus(db.orders, "PENDING");
      |r.value| == |os| && forall i :: 0 <= i < |os| ==> OrderDtoOf(os[i], db.users, db.menuItems) == Ok(r.value[i])
    ensures r.Ok? ==> forall i :: 0 <= i < |r.value| ==> r.value[i].status == "PENDING"
  {
    var os := OrdersWithStatus(db.orders, "PENDING");
    var r := ProjectAll(os, db.users, db.menuItems);
    assert r.Ok? ==> forall i :: 0 <= i < |r.value| ==> OrderDtoOf(os[i], db.users, db.menuItems) == Ok(r.value[i]);
    r
  }

  // ---- Status values --------------------------------------------------------

  const ORDER_STATUSES: seq<string> := ["PENDING", "APPROVED", "REJECTED", "DELIVERED", "COMPLETED"]

  /** `isValidStatus`: the upper-cased argument is one of the five names. */
  predicate IsValidStatus(status: string) {
    ToUpper(status) in ORDER_STATUSES
  }

  /** A status is accepted exactly when it equals one of the five names up to case. */
  lemma IsValidStatusIff(status: string)
    ensures IsValidStatus(status) <==> exists k :: 0 <= k < |ORDER_STATUSES| && EqualsIgnoringCase(status, ORDER_STATUSES[k])
  {
    forall k | 0 <= k < |ORDER_STATUSES|
      ensures ToUpper(status) == ORDER_STATUSES[k] <==> EqualsIgnoringCase(status, ORDER_STATUSES[k])
    {
      ToUpperMatches(status, ORDER_STATUSES[k]);
    }
  }

  lemma StatusExamples()
    ensures IsValidStatus("PENDING") && IsValidStatus("approved") && IsValidStatus("Delivered")
    ensures !IsValidStatus("banana") && !IsValidStatus("INVALID_STATUS") && !IsValidStatus("")
  {
    assert ToUpper("approved") == "APPROVED";
    assert ToUpper("Delivered") == "DELIVERED";
    assert ToUpper("PENDING") == "PENDING";
  }

  // ---- Writes, as functions of the state --------------------------------------

  /** `placeOrder`: the user is looked up before the menu item; a null id
      fails its lookup with NullId, an unknown one with the not-found error,
      and either failure stores nothing. Otherwise one PENDING order is
      appended that copies the item's current name, takes the request's
      quantity without checking it again, and references the user and the item. */
  function PlaceOrderOn(db: Db, req: OrderRequest): (t: Transition<OrderDTO>)
    ensures req.userId.None? ==> t.out == Err(NullId) && t.after == db
    ensures req.userId.Some? && UserById(db.users, req.userId.value).None? ==>
      t.out == Err(UserNotFound(req.userId.value, "id")) && t.after == db
    ensures req.userId.Some? && UserById(db.users, req.userId.value).Some? && req.menuItemId.None? ==>
      t.out == Err(NullId) && t.after == db
    ensures req.userId.Some? && UserById(db.users, req.userId.value).Some? && req.menuItemId.Some?
      && ItemById(db.menuItems, req.menuItemId.value).None?
      ==> t.out == Err(MenuItemNotFound(req.menuItemId.value)) && t.after == db
    ensures t.out.Ok? <==>
      req.userId.Some? && UserById(db.users, req.userId.value).Some? &&
      req.menuItemId.Some? && ItemById(db.menuItems, req.menuItemId.value).Some?
    ensures t.out.Ok? ==>
      var user := UserById(db.users, req.userId.value).value;
      var item := ItemById(db.menuItems, req.menuItemId.value).value;
      && t.after.users == db.users && t.after.menuItems == db.menuItems
      && |t.after.orders| == |db.orders| + 1 && t.after.orders[..|db.orders|] == db.orders
      && var o := t.after.orders[|db.orders|];
        && o.id == NewId(db) && o.status == "PENDING" && o.itemName == item.name
        && o.quantity == req.quantity && o.user == req.userId.value && o.menuItem == req.menuItemId.value
        && t.out == Ok(OrderDTO(o.id, item.name, "PENDING", user.username, req.quantity))
  {
    match FindUser(db.users, req.userId)
    case Err(e) => Transition(Err(e), db)
    case Ok(user) =>
      match FindItem(db.menuItems, req.menuItemId)
      case Err(e) => Transition(Err(e), db)
      case Ok(item) =>
        var d := AddOrder(db, Order("", item.name, req.quantity, "PENDING", user.id, item.id));
        assert d.orders[..|db.orders|] == db.orders;
        Transition(OrderDtoOf(d.orders[|db.orders|], d.users, d.menuItems), d)
  }

  /** `userService.findById` on a possibly null id. */
  function FindUser(users: seq<User>, id: Option<Id>): (r: Result<User>)
    ensures id.None? ==> r == Err(NullId)
    ensures id.Some? ==> r == Users.FindUserById(users, id.value)
  {
    if id.None? then Err(NullId) else Users.FindUserById(users, id.value)
  }

  /** `menuService.findById` on a possibly null id. */
  function FindItem(items: seq<MenuItem>, id: Option<Id>): (r: Result<MenuItem>)
    ensures id.None? ==> r == Err(NullId)
    ensures id.Some? ==> r == Menus.FindMenuItemById(items, id.value)
  {
    if id.None? then Err(NullId) else Menus.FindMenuItemById(items, id.value)
  }

  lemma PlaceOrderOnValid(db: Db, req: OrderRequest)
    requires ValidDb(db)
    ensures ValidDb(PlaceOrderOn(db, req).after)
  {
    if PlaceOrderOn(db, req).out.Ok? {
      var user := UserById(db.users, req.userId.value);
      var item := ItemById(db.menuItems, req.menuItemId.value);
      AddOrderValid(db, Order("", item.value.name, req.quantity, "PENDING", user.value.id, item.value.id));
    }
  }

  /** A placed order is listed among its user's orders and among the pending ones. */
  lemma PlacedOrderListed(db: Db, req: OrderRequest)
    requires PlaceOrderOn(db, req).out.Ok?
    ensures var d := PlaceOrderOn(db, req).after;
      && d.orders[|db.orders|] in OrdersOfUser(d.orders, req.userId.value)
      && d.orders[|db.orders|] in OrdersWithStatus(d.orders, "PENDING")
  {
  }

  /** `updateOrderStatus`: OrderNotFound for an unknown id, checked before the
      status; InvalidStatus for a status outside the five names. Otherwise the
      order's status becomes the argument exactly as given, whatever it was
      before, and the saved order is projected. */
  function UpdateOrderStatusOn(db: Db, orderId: Id, status: string): (t: Transition<OrderDTO>)
    ensures OrderById(db.orders, orderId).None? ==> t.out == Err(OrderNotFound(orderId)) && t.after == db
    ensures OrderById(db.orders, orderId).Some? && !IsValidStatus(status) ==>
      t.out == Err(InvalidStatus(status)) && t.after == db
    ensures OrderById(db.orders, orderId).Some? && IsValidStatus(status) ==>
      var o := OrderById(db.orders, orderId).value.(status := status);
      && t.after == PutOrder(db, o)
      && t.out == OrderDtoOf(o, t.after.users, t.after.menuItems)
  {
    match FindOrderById(db.orders, orderId)
    case Err(e) => Transition(Err(e), db)
    case Ok(order) =>
      if !IsValidStatus(status) then Transition(Err(InvalidStatus(status)), db)
      else
        var saved := order.(status := status);
        var d := PutOrder(db, saved);
        Transition(OrderDtoOf(saved, d.users, d.menuItems), d)
  }

  /** A status update changes the status of that one order and nothing else. */
  lemma UpdateOrderStatusOnlyThatOrder(db: Db, orderId: Id, status: string)
    requires ValidDb(db)
    requires OrderById(db.orders, orderId).Some? && IsValidStatus(status)
    ensures var d := UpdateOrderStatusOn(db, orderId, status).after;
      && |d.orders| == |db.orders| && d.users == db.users && d.menuItems == db.menuItems
      && forall i :: 0 <= i < |db.orders| ==>
        d.orders[i] == if db.orders[i].id == orderId then db.orders[i].(status := status) else db.orders[i]
  {
    var o := OrderById(db.orders, orderId).value;
    var d := PutOrder(db, o.(status := status));
    assert UpdateOrderStatusOn(db, orderId, status).after == d;
    var k :| 0 <= k < |db.orders| && db.orders[k] == o;
    forall i | 0 <= i < |db.orders|
      ensures d.orders[i] == if db.orders[i].id == orderId then db.orders[i].(status := status) else db.orders[i]
    {
      if db.orders[i].id == orderId {
        assert db.orders[i].id == db.orders[k].id;
      }
    }
  }

  lemma UpdateOrderStatusOnValid(db: Db, orderId: Id, status: string)
    requires ValidDb(db)
    ensures ValidDb(UpdateOrderStatusOn(db, orderId, status).after)
  {
    var found := OrderById(db.orders, orderId);
    if found.Some? && IsValidStatus(status) {
      var o := found.value;
      assert o in db.orders;
      assert UserById(db.users, o.user).Some?;
      PutOrderValid(db, o.(status := status));
    }
  }

  /** "pending" passes the status check and is stored as written, so the
      order then drops out of the pending listing. */
  lemma LowerCasePendingNotListed(db: Db, orderId: Id)
    requires OrderById(db.orders, orderId).Some?
    ensures IsValidStatus("pending")
    ensures var d := UpdateOrderStatusOn(db, orderId, "pending").after;
      forall i :: 0 <= i < |OrdersWithStatus(d.orders, "PENDING")| ==> OrdersWithStatus(d.orders, "PENDING")[i].id != orderId
  {
    assert ToUpper("pending") == "PENDING";
    var o := OrderById(db.orders, orderId).value.(status := "pending");
    var d := PutOrder(db, o);
    assert UpdateOrderStatusOn(db, orderId, "pending").after == d;
    var listed := OrdersWithStatus(d.orders, "PENDING");
    forall i | 0 <= i < |listed|
      ensures listed[i].id != orderId
    {
      var j :| 0 <= j < |d.orders| && d.orders[j] == listed[i];
      assert d.orders[j] == if db.orders[j].id == orderId then o else db.orders[j];
    }
  }

  // ---- The service object -------------------------------------------------------

  class OrderService {
    const store: Store
    const users: Users.UserService
    const menu: Menus.MenuService

    constructor (users: Users.UserService, menu: Menus.MenuService)
      requires users.store == menu.store
      ensures this.users == users && this.menu == menu && this.store == users.store
    {
      this.store := users.store;
      this.users := users;
      this.menu := menu;
    }

    method PlaceOrder(req: OrderRequest) returns (r: Result<OrderDTO>)
      requires store.Valid()
      modifies store
      ensures store.Valid()
      ensures Transition(r, store.Snapshot()) == PlaceOrderOn(old(store.Snapshot()), req)
    {
      var user := FindUser(store.users, req.userId);
      if user.Err? {
        return Err(user.error);
      }
      var item := FindItem(store.menuItems, req.menuItemId);
      if item.Err? {
        return Err(item.error);
      }
      var order := Order("", item.value.name, req.quantity, "PENDING", user.value.id, item.value.id);
      var saved := store.InsertOrder(order);
      r := OrderDtoOf(saved, store.users, store.menuItems);
    }

    method UpdateOrderStatus(orderId: Id, status: string) returns (r: Result<OrderDTO>)
      requires store.Valid()
      modifies store
      ensures store.Valid()
      ensures Transition(r, store.Snapshot()) == UpdateOrderStatusOn(old(store.Snapshot()), orderId, status)
    {
      var found := FindOrderById(store.orders, orderId);
      if found.Err? {
        return Err(found.error);
      }
      if !IsValidStatus(status) {
        return Err(InvalidStatus(status));
      }
      var order := found.value.(status := status);
      assert UserById(store.users, order.user).Some?;
      store.UpdateOrder(order);
      r := OrderDtoOf(order, store.users, store.menuItems);
    }
  }
}
