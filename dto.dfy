/** The transfer objects the services return, the projections that build them
    from stored entities, and the order-placement request with its constraints. */
module Dto {
  import opened Errors
  import opened Text
  import opened Model

  /** The public view of a user: no password, no orders. */
  datatype UserDTO = UserDTO(id: Id, username: string, role: string)

  /** The public view of a menu item: no orders back-reference. */
  datatype MenuItemDTO = MenuItemDTO(id: Id, name: string, description: Option<string>, price: real)

  datatype OrderDTO = OrderDTO(id: Id, itemName: string, status: string, username: string, quantity: int)

  /** `new UserDTO(user)`. */
  function UserDtoOf(u: User): (d: UserDTO)
    ensures d.id == u.id && d.username == u.username && d.role == u.role
  {
    UserDTO(u.id, u.username, u.role)
  }

  /** The projection does not see the password or the orders list. */
  lemma UserDtoHidesPassword(a: User, b: User)
    requires a.id == b.id && a.username == b.username && a.role == b.role
    ensures UserDtoOf(a) == UserDtoOf(b)
  {
  }

  /** `new MenuItemDTO(item)`. */
  function MenuItemDtoOf(item: MenuItem): (d: MenuItemDTO)
    ensures d.id == item.id && d.name == item.name
    ensures d.description == item.description && d.price == item.price
  {
    MenuItemDTO(item.id, item.name, item.description, item.price)
  }

  /** The projection does not see the orders back-reference. */
  lemma MenuItemDtoHidesOrders(a: MenuItem, b: MenuItem)
    requires a.(orders := b.orders) == b
    ensures MenuItemDtoOf(a) == MenuItemDtoOf(b)
  {
  }

  /** `new OrderDTO(order)`: the item name and the username are read through the
      two references, so they are the referenced records' current values. A
      reference that no longer resolves makes the constructor throw. */
  function OrderDtoOf(o: Order, users: seq<User>, items: seq<MenuItem>): (r: Result<OrderDTO>)
    ensures r.Ok? <==> UserById(users, o.user).Some? && ItemById(items, o.menuItem).Some?
    ensures r.Err? ==> r.error == UnresolvedReference(o.id)
    ensures r.Ok? ==> r.value.id == o.id && r.value.status == o.status && r.value.quantity == o.quantity
    ensures r.Ok? ==> r.value.itemName == ItemById(items, o.menuItem).value.name
    ensures r.Ok? ==> r.value.username == UserById(users, o.user).value.username
  {
    match ItemById(items, o.menuItem)
    case None => Err(UnresolvedReference(o.id))
    case Some(item) =>
      match UserById(users, o.user)
      case None => Err(UnresolvedReference(o.id))
      case Some(user) => Ok(OrderDTO(o.id, item.name, o.status, user.username, o.quantity))
  }

  /** The stored item-name snapshot plays no part in the projection: after the
      item is renamed the projection shows the new name, not the snapshot. */
  lemma OrderDtoIgnoresSnapshot(o: Order, snapshot: string, users: seq<User>, items: seq<MenuItem>)
    ensures OrderDtoOf(o, users, items) == OrderDtoOf(o.(itemName := snapshot), users, items)
  {
  }

  /** The four-argument constructor leaves the quantity at its default, 0. */
  function OrderDto4(id: Id, itemName: string, status: string, username: string): (d: OrderDTO)
    ensures d.quantity == 0
    ensures d.id == id && d.itemName == itemName && d.status == status && d.username == username
  {
    OrderDTO(id, itemName, status, username, 0)
  }

  // ---- OrderRequest ------------------------------------------------------

  /** The body of a placement request; a null id is `None`. */
  datatype OrderRequest = OrderRequest(userId: Option<string>, menuItemId: Option<string>, quantity: int)

  /** `new OrderRequest()`: both ids null, quantity 1. */
  function NewOrderRequest(): (r: OrderRequest)
    ensures r.quantity == 1 && r.userId.None? && r.menuItemId.None?
  {
    OrderRequest(None, None, 1)
  }

  /** @NotBlank on an id field: present and not blank. */
  predicate IdGiven(id: Option<string>) {
    id.Some? && NotBlank(id.value)
  }

  /** @NotBlank on both ids and @Min(1) on the quantity. */
  predicate OrderRequestValid(r: OrderRequest) {
    IdGiven(r.userId) && IdGiven(r.menuItemId) && r.quantity >= 1
  }

  /** A request is accepted exactly when both ids hold a visible character and at least one item is ordered. */
  lemma OrderRequestValidIff(r: OrderRequest)
    ensures OrderRequestValid(r) <==>
      && r.userId.Some? && (exists i :: 0 <= i < |r.userId.value| && r.userId.value[i] > ' ')
      && r.menuItemId.Some? && (exists i :: 0 <= i < |r.menuItemId.value| && r.menuItemId.value[i] > ' ')
      && r.quantity >= 1
  {
    if r.userId.Some? { NotBlankMeansVisibleChar(r.userId.value); }
    if r.menuItemId.Some? { NotBlankMeansVisibleChar(r.menuItemId.value); }
  }

  /** The default quantity passes @Min(1); the request the controller test posts without a user id fails. */
  lemma OrderRequestExamples()
    ensures NewOrderRequest().quantity >= 1
    ensures !OrderRequestValid(OrderRequest(None, Some("item1"), 1))
    ensures !OrderRequestValid(OrderRequest(Some("   "), Some("item1"), 1))
    ensures !OrderRequestValid(OrderRequest(Some("u1"), Some("item1"), 0))
  {
    OrderRequestValidIff(OrderRequest(Some("   "), Some("item1"), 1));
  }
}
