# QuickBite ordering core in Dafny

QuickBite is a campus food-ordering backend. Users register and log in, browse a
menu and place orders. Administrators manage the menu items and move orders
through their statuses. This project models:

- the data model and its bean-validation constraints (`Model`), and the transfer
  objects the services return (`Dto`);
- the three MongoDB collections, as a value `Db` and as a `Store` object whose
  `save` and `deleteById` methods update them in place (`Repository`);
- the three services: `UserService`, `MenuService` and `OrderService`
  (`Users`, `Menus`, `Orders`);
- the start-up seeding routine `DataInitializer` (`Seeding`);
- the two first-match URL access tables, `SecurityConfig` and `TestSecurityConfig`,
  with Spring's Ant-style path patterns (`Security`);
- the decisions of the three page scripts:
  - `Html`: the HTML escaper (one copy in each script) and the status lookups;
  - `AdminPage`: the status colours, the button rules that form a small status
    machine, and the add and edit form checks;
  - `OrdersPage`: the badges, icons, messages, summary counts and the order lookup;
  - `MenuPage`: the quantity stepper and the quantity check before an order is posted.

Each service operation is a pure function `XOn(db, …)` that returns a
`Transition(out, after)`: the result, or the exception as `Err(error)`, plus the
store contents afterwards. The method of the service class of the same name
updates the `Store` object in place. Its postcondition says that the value it
returns and the new store contents are exactly that transition, taken from the
old contents. Lemmas beside each function prove:

- that the store invariant `ValidDb` is preserved:
  - ids are unique and were issued by the id counter;
  - usernames are unique;
  - every order's user reference resolves;
- that nothing outside the one record an operation touches changes.

Supporting choices:

- Ids are decimal renderings of a counter, so a new id is provably fresh.
- The password encoder is a parameter: an encode function and a matches function.
- The caller's role is a parameter of the access decision.

Behaviour that the model reproduces as the code is written:

- `MenuService.addMenuItem` checks none of the fields. The entity constraints are
  predicates that only the callers with `@Valid` apply (`Menus.AddMenuItemUnchecked`).
- Reading an order whose menu item was deleted fails with a null dereference.
  It is an `Err(UnresolvedReference(orderId))` here.
- `OrderService.getAllOrders` and `getPendingOrders` call a five-argument
  `OrderDTO` constructor that `OrderDTO.java` does not declare. It is modelled as
  the five-field DTO with those fields (`Dto.OrderDtoOf`).
- No service writes the `orders` lists of users and menu items. `save` stores
  each list as the saved object carries it.

## Model

| member | source | states |
|---|---|---|
| Model.NewUser | src/main/java/com/quickbite/model/User.java:40-45 | a fresh User has role STUDENT and no orders |
| Model.UserById | src/main/java/com/quickbite/service/UserService.java:75-78 | the lookup by id finds a stored user with that id, and fails exactly when no user has it |
| Model.UserByName | src/main/java/com/quickbite/service/UserService.java:80-86 | the lookup by username finds a stored user with that name, and fails exactly when none has it |
| Model.ItemById | src/main/java/com/quickbite/service/MenuService.java:62-65 | the lookup by id finds a stored item with that id, and fails exactly when no item has it |
| Model.ItemByName | src/main/java/com/quickbite/config/DataInitializer.java:90-98 | the stream filter and findFirst give the first item of that name, or none when no item has it |
| Model.OrderById | src/main/java/com/quickbite/service/OrderService.java:105-108 | the lookup finds a stored order with that id, and fails exactly when none has it |
| Model.UsernameValidIff | src/main/java/com/quickbite/model/User.java:26-30 | a username is valid iff it has 3 to 50 characters, each a letter, digit or underscore |
| Model.PasswordValidIff | src/main/java/com/quickbite/model/User.java:32-38 | a password is valid iff it has at least 6 characters, one of them from @#$%^&+=!*() |
| Model.RoleValid | src/main/java/com/quickbite/model/User.java:40 | a role is valid when it is absent, "STUDENT" or "ADMIN", compared exactly |
| Model.UserValid | src/main/java/com/quickbite/model/User.java:26-41 | a user is valid when its username, password and role each meet their constraints |
| Model.TestCredentialsValid | src/test/java/com/quickbite/controller/UserControllerTest.java:46-47 | the credentials the controller tests post, testuser and password@123, meet the User constraints |
| Model.NameValidIff | src/main/java/com/quickbite/model/MenuItem.java:24-26 | a menu item name is valid iff it has 2 to 100 characters, one of them above U+0020 |
| Model.BlankNameRejected | src/main/java/com/quickbite/model/MenuItem.java:24-26 | two spaces meet the size bound but fail @NotBlank |
| Model.MinimumItemAccepted | src/main/java/com/quickbite/model/MenuItem.java:24-33 | the name "AB" with price 0.01 is accepted: the bounds are inclusive |
| Model.InvalidItemsRejected | src/main/java/com/quickbite/model/MenuItem.java:24-33 | a one-letter name, a negative price, a zero price and a null price are each refused |
| Model.DescriptionValid | src/main/java/com/quickbite/model/MenuItem.java:28-29 | an absent description is valid; a present one has at most 500 characters |
| Model.PriceValid | src/main/java/com/quickbite/model/MenuItem.java:31-33 | the price is present and at least 0.01, the bound inclusive |
| Model.MenuItemFieldsValid | src/main/java/com/quickbite/model/MenuItem.java:24-33 | a request body is valid when its name, description and possibly absent price each meet their constraints |
| Model.MenuItemValid | src/main/java/com/quickbite/model/MenuItem.java:24-33 | a stored item is valid when its name, description and price meet the same constraints |
| Dto.UserDtoOf | src/main/java/com/quickbite/dto/UserDTO.java:16-20 | the user projection copies id, username and role |
| Dto.UserDtoHidesPassword | src/main/java/com/quickbite/dto/UserDTO.java:11-20 | users that differ only in password or orders have the same projection |
| Dto.MenuItemDtoOf | src/main/java/com/quickbite/dto/MenuItemDTO.java:17-22 | the item projection copies id, name, description and price |
| Dto.MenuItemDtoHidesOrders | src/main/java/com/quickbite/dto/MenuItemDTO.java:11-22 | items that differ only in their orders have the same projection |
| Dto.OrderDtoOf | src/main/java/com/quickbite/dto/OrderDTO.java:23-29 | the order projection succeeds iff both references resolve; it reads the live item name and the username, and copies id, status and quantity |
| Dto.OrderDtoIgnoresSnapshot | src/main/java/com/quickbite/dto/OrderDTO.java:25 | the order's stored itemName plays no part in the projection |
| Dto.OrderDto4 | src/main/java/com/quickbite/dto/OrderDTO.java:16-21 | the four-argument constructor copies its four fields and leaves quantity at 0 |
| Dto.NewOrderRequest | src/main/java/com/quickbite/dto/OrderRequest.java:9-16 | a fresh request has null ids and quantity 1 |
| Dto.OrderRequestValidIff | src/main/java/com/quickbite/dto/OrderRequest.java:9-16 | a request is valid iff both ids hold a visible character and the quantity is at least 1 |
| Dto.OrderRequestExamples | src/main/java/com/quickbite/dto/OrderRequest.java:9-16 | the default quantity is valid; a missing or blank user id, or quantity 0, is refused |
| Repository.DecimalRoundTrip | src/main/java/com/quickbite/model/Order.java:16 | rendering a counter value as an id and reading it back gives the value, so the ids generated from distinct values are distinct |
| Repository.NewIdFresh | src/main/java/com/quickbite/model/User.java:23-24 | the next generated id differs from every stored user, item and order id |
| Repository.EmptyDbValid | src/main/java/com/quickbite/model/User.java:29 | the empty store meets the invariant |
| Repository.AddUser | src/main/java/com/quickbite/service/UserService.java:34 | saving a new user appends it under a fresh id and changes nothing else |
| Repository.AddMenuItem | src/main/java/com/quickbite/service/MenuService.java:30 | saving a new item appends it under a fresh id and changes nothing else |
| Repository.AddOrder | src/main/java/com/quickbite/service/OrderService.java:39 | saving a new order appends it under a fresh id and changes nothing else |
| Repository.PutUser | src/main/java/com/quickbite/service/UserService.java:63 | saving a stored user replaces the record with that id in place and changes nothing else |
| Repository.PutMenuItem | src/main/java/com/quickbite/service/MenuService.java:45 | saving a stored item replaces the record with that id in place |
| Repository.PutOrder | src/main/java/com/quickbite/service/OrderService.java:94 | saving a stored order replaces the record with that id in place |
| Repository.RemoveMenuItem | src/main/java/com/quickbite/service/MenuService.java:58 | deleteById keeps exactly the items with other ids and touches no order |
| Repository.AddUserValid | src/main/java/com/quickbite/model/User.java:29 | appending a user whose name is not taken keeps the invariant |
| Repository.AddMenuItemValid | src/main/java/com/quickbite/service/MenuService.java:30 | appending an item keeps the invariant |
| Repository.AddOrderValid | src/main/java/com/quickbite/service/OrderService.java:39 | appending an order whose user exists keeps the invariant |
| Repository.PutUserValid | src/main/java/com/quickbite/service/UserService.java:63 | replacing a user and keeping its name keeps the invariant |
| Repository.PutMenuItemValid | src/main/java/com/quickbite/service/MenuService.java:45 | replacing a stored item keeps the invariant |
| Repository.PutOrderKeepsIds | src/main/java/com/quickbite/service/OrderService.java:94 | replacing an order keeps every order id at its position |
| Repository.PutOrderValid | src/main/java/com/quickbite/service/OrderService.java:94 | replacing an order whose user exists keeps the invariant |
| Repository.FilterKeepsIdsDistinct | src/main/java/com/quickbite/service/MenuService.java:58 | removing items keeps the remaining item ids distinct |
| Repository.RemoveMenuItemValid | src/main/java/com/quickbite/service/MenuService.java:58 | deleting an item keeps the invariant, its orders included |
| Repository.Store.constructor | src/main/java/com/quickbite/repository/MenuRepository.java:1-10 | a new store is empty and valid |
| Repository.Store.InsertUser | src/main/java/com/quickbite/service/UserService.java:34 | insertion updates the fields in place, as AddUser does, and returns the saved record |
| Repository.Store.InsertMenuItem | src/main/java/com/quickbite/service/MenuService.java:30 | insertion updates the fields in place, as AddMenuItem does |
| Repository.Store.InsertOrder | src/main/java/com/quickbite/service/OrderService.java:39 | insertion updates the fields in place, as AddOrder does |
| Repository.Store.UpdateUser | src/main/java/com/quickbite/service/UserService.java:63 | the in-place update, as PutUser does |
| Repository.Store.UpdateMenuItem | src/main/java/com/quickbite/service/MenuService.java:45 | the in-place update, as PutMenuItem does |
| Repository.Store.UpdateOrder | src/main/java/com/quickbite/service/OrderService.java:94 | the in-place update, as PutOrder does |
| Repository.Store.DeleteMenuItem | src/main/java/com/quickbite/service/MenuService.java:58 | the in-place delete, as RemoveMenuItem does |
| Users.FindUserById | src/main/java/com/quickbite/service/UserService.java:75-78 | the stored user with that id, or UserNotFound(id, "id") exactly when there is none |
| Users.FindUserByUsername | src/main/java/com/quickbite/service/UserService.java:80-86 | the stored user with that name, or UserNotFound(name, "username") exactly when there is none |
| Users.Login | src/main/java/com/quickbite/service/UserService.java:40-54 | success returns the stored user with that name whose hash the password fits; every failure is InvalidCredentials |
| Users.LoginIff | src/main/java/com/quickbite/service/UserService.java:40-54 | with unique usernames, login succeeds iff some user has that name and a hash the password fits |
| Users.LoginFailuresAlike | src/main/java/com/quickbite/service/UserService.java:44-50 | an unknown name and a wrong password give the same error |
| Users.GetAllUsers | src/main/java/com/quickbite/service/UserService.java:69-73 | one projection per stored user, in store order |
| Users.RegisterOn | src/main/java/com/quickbite/service/UserService.java:24-38 | fails with UserAlreadyExists iff the name is taken, storing nothing; otherwise appends exactly one user with the encoded password and role STUDENT |
| Users.RegisterValid | src/main/java/com/quickbite/service/UserService.java:27-34 | registration keeps usernames unique and the invariant intact |
| Users.RegisterIgnoresRole | src/main/java/com/quickbite/service/UserService.java:32 | the role a client sends has no effect on registration |
| Users.RegisterThenLogin | src/main/java/com/quickbite/service/UserService.java:31-54 | with a sound encoder, a newly registered user can log in with the password they registered and gets the new record |
| Users.ChangeUserRoleOn | src/main/java/com/quickbite/service/UserService.java:56-67 | UserNotFound for an unknown id, storing nothing; otherwise the role becomes the argument and only that record is saved |
| Users.ChangeUserRoleOnlyThatRole | src/main/java/com/quickbite/service/UserService.java:59-63 | a role change alters the role of that one user and no other field or record |
| Users.ChangeUserRoleValid | src/main/java/com/quickbite/service/UserService.java:56-67 | a role change keeps the invariant |
| Users.ChangeUserRoleUnchecked | src/main/java/com/quickbite/service/UserService.java:62 | a role the entity's own pattern refuses ("SUPERUSER") is stored all the same |
| Users.UserService.constructor | src/main/java/com/quickbite/service/UserService.java:19-22 | the service holds the store and the encoder |
| Users.UserService.Register | src/main/java/com/quickbite/service/UserService.java:24-38 | updates the store and returns exactly what RegisterOn gives |
| Users.UserService.ChangeUserRole | src/main/java/com/quickbite/service/UserService.java:56-67 | updates the store and returns exactly what ChangeUserRoleOn gives |
| Menus.GetAllMenuItems | src/main/java/com/quickbite/service/MenuService.java:20-26 | one projection per stored item, in store order |
| Menus.FindMenuItemById | src/main/java/com/quickbite/service/MenuService.java:62-65 | the stored item with that id, or MenuItemNotFound exactly when there is none |
| Menus.AddMenuItemOn | src/main/java/com/quickbite/service/MenuService.java:28-33 | always succeeds, appending the item as given under a fresh id |
| Menus.AddMenuItemOnValid | src/main/java/com/quickbite/service/MenuService.java:28-33 | adding an item keeps the invariant |
| Menus.AddMenuItemUnchecked | src/main/java/com/quickbite/service/MenuService.java:28-33 | an item the entity constraints refuse is stored all the same |
| Menus.UpdateMenuItemOn | src/main/java/com/quickbite/service/MenuService.java:35-49 | MenuItemNotFound for an unknown id, storing nothing; otherwise name, description and price are overwritten and the id and orders are kept |
| Menus.UpdateMenuItemOnlyThatItem | src/main/java/com/quickbite/service/MenuService.java:38-45 | an update alters the three fields of that one item and nothing else |
| Menus.UpdateMenuItemOnValid | src/main/java/com/quickbite/service/MenuService.java:35-49 | an update keeps the invariant |
| Menus.UpdateClearsDescription | src/main/java/com/quickbite/service/MenuService.java:42 | an update without a description clears the stored one: there is no merge |
| Menus.DeleteMenuItemOn | src/main/java/com/quickbite/service/MenuService.java:51-60 | MenuItemNotFound for an unknown id, storing nothing; otherwise exactly the items with other ids remain and no order changes |
| Menus.DeleteMenuItemOnValid | src/main/java/com/quickbite/service/MenuService.java:51-60 | a deletion keeps the invariant |
| Menus.DeleteLeavesOrdersDangling | src/main/java/com/quickbite/service/MenuService.java:58 | after a deletion, an order of that item is kept but no longer projects |
| Menus.MenuService.constructor | src/main/java/com/quickbite/service/MenuService.java:16-18 | the service holds the store |
| Menus.MenuService.AddMenuItem | src/main/java/com/quickbite/service/MenuService.java:28-33 | updates the store and returns exactly what AddMenuItemOn gives |
| Menus.MenuService.UpdateMenuItem | src/main/java/com/quickbite/service/MenuService.java:35-49 | updates the store and returns exactly what UpdateMenuItemOn gives |
| Menus.MenuService.DeleteMenuItem | src/main/java/com/quickbite/service/MenuService.java:51-60 | updates the store and returns exactly what DeleteMenuItemOn gives |
| Orders.ProjectAll | src/main/java/com/quickbite/service/OrderService.java:51-53 | mapping the projection over a list succeeds iff every order projects, and keeps the order; a failure is one order's error |
| Orders.OrdersOfUser | src/main/java/com/quickbite/service/OrderService.java:51 | findByUserId gives exactly the orders that reference the user, in store order as Seqs.FilterAppend and Seqs.FilterOne fix it |
| Orders.OrdersWithStatus | src/main/java/com/quickbite/service/OrderService.java:71 | findByStatus gives exactly the orders with that exact status, in store order as Seqs.FilterAppend and Seqs.FilterOne fix it |
| Orders.FindOrderById | src/main/java/com/quickbite/service/OrderService.java:105-108 | the stored order with that id, or OrderNotFound exactly when there is none |
| Orders.GetOrdersByUserId | src/main/java/com/quickbite/service/OrderService.java:45-54 | UserNotFound for an unknown user, even when orders reference the id; otherwise succeeds iff every order of that user can be shown, and then gives one projection per order of that user, each showing that user's name |
| Orders.GetAllOrders | src/main/java/com/quickbite/service/OrderService.java:56-67 | succeeds iff every order's item and user resolve; then one DTO per order, in store order, with the live item name |
| Orders.GetAllOrdersFailsOnlyForDeletedItems | src/main/java/com/quickbite/service/OrderService.java:56-67 | in a valid store, listing all orders fails exactly when some order's item was deleted |
| Orders.GetPendingOrders | src/main/java/com/quickbite/service/OrderService.java:69-80 | succeeds iff every order whose status is exactly PENDING can be shown, and then gives one projection per such order, each with status PENDING |
| Orders.IsValidStatusIff | src/main/java/com/quickbite/service/OrderService.java:100-103 | a status is accepted iff it equals one of the five names, ignoring case |
| Orders.StatusExamples | src/main/java/com/quickbite/service/OrderService.java:100-103 | PENDING, approved and Delivered are accepted; banana, INVALID_STATUS and the empty string are not |
| Orders.FindUser | src/main/java/com/quickbite/service/OrderService.java:29 | a null user id fails with NullId; otherwise the user lookup |
| Orders.FindItem | src/main/java/com/quickbite/service/OrderService.java:30 | a null item id fails with NullId; otherwise the item lookup |
| Orders.PlaceOrderOn | src/main/java/com/quickbite/service/OrderService.java:25-43 | the user is checked before the item; a null or unknown id stores nothing; otherwise exactly one PENDING order is appended, with the item's name, the request's quantity and both references |
| Orders.PlaceOrderOnValid | src/main/java/com/quickbite/service/OrderService.java:25-43 | placing an order keeps the invariant |
| Orders.PlacedOrderListed | src/main/java/com/quickbite/service/OrderService.java:45-80 | a placed order is listed among its user's orders and among the pending ones |
| Orders.UpdateOrderStatusOn | src/main/java/com/quickbite/service/OrderService.java:82-98 | OrderNotFound is checked before InvalidStatus and both store nothing; otherwise the status is stored as written |
| Orders.UpdateOrderStatusOnlyThatOrder | src/main/java/com/quickbite/service/OrderService.java:93-94 | a status update alters the status of that one order and nothing else |
| Orders.UpdateOrderStatusOnValid | src/main/java/com/quickbite/service/OrderService.java:82-98 | a status update keeps the invariant |
| Orders.LowerCasePendingNotListed | src/main/java/com/quickbite/service/OrderService.java:71-102 | "pending" passes the case-insensitive check, is stored in lower case and drops out of the exact PENDING listing |
| Orders.OrderService.constructor | src/main/java/com/quickbite/service/OrderService.java:19-23 | the service shares one store with the user and menu services |
| Orders.OrderService.PlaceOrder | src/main/java/com/quickbite/service/OrderService.java:25-43 | updates the store and returns exactly what PlaceOrderOn gives |
| Orders.OrderService.UpdateOrderStatus | src/main/java/com/quickbite/service/OrderService.java:82-98 | updates the store and returns exactly what UpdateOrderStatusOn gives |
| Seeding.SampleOrder | src/main/java/com/quickbite/config/DataInitializer.java:101-106 | a sample order references the user and the item and copies the item's name |
| Seeding.SeedUsers | src/main/java/com/quickbite/config/DataInitializer.java:43-57 | appends user1 as STUDENT and admin as ADMIN, with their passwords stored as written |
| Seeding.SeedMenuItems | src/main/java/com/quickbite/config/DataInitializer.java:59-85 | appends the four items in order, with their names, descriptions and prices |
| Seeding.SampleIfFound | src/main/java/com/quickbite/config/DataInitializer.java:100-128 | one sample order exactly when both the user and the item were found, and it is that sample |
| Seeding.SampleOrders | src/main/java/com/quickbite/config/DataInitializer.java:100-128 | at most three samples, none without user1, each referencing user1 and not yet carrying an id |
| Seeding.SampleOrdersWhich | src/main/java/com/quickbite/config/DataInitializer.java:100-128 | the pizza (2, PENDING), burger (1, COMPLETED) and fries (3, PENDING) samples are each present iff user1 and that item were found |
| Seeding.PlannedOrdersFound | src/main/java/com/quickbite/config/DataInitializer.java:89-128 | each sample is planned iff user1 and the first stored item of its name exist |
| Seeding.SeedOrders | src/main/java/com/quickbite/config/DataInitializer.java:87-131 | the stored orders stay first; exactly the planned samples follow, in order, each with the next id of the counter; users and items are unchanged, and nothing is added without user1 |
| Seeding.SeededInOrder | src/main/java/com/quickbite/config/DataInitializer.java:100-128 | the three guarded saves append the planned samples one at a time, in order |
| Seeding.Seeded | src/main/java/com/quickbite/config/DataInitializer.java:27-41 | a non-empty collection is kept; an empty one becomes exactly what its step makes of the state the earlier steps left (users, then items, then orders); afterwards there are users and items |
| Seeding.SeededIdempotent | src/main/java/com/quickbite/config/DataInitializer.java:29-40 | running the routine a second time changes nothing |
| Seeding.SeedOrdersAllFound | src/main/java/com/quickbite/config/DataInitializer.java:100-128 | with user1 and the three items present, exactly the three sample orders are added with their quantities and statuses |
| Seeding.SeededMenuLookups | src/main/java/com/quickbite/config/DataInitializer.java:90-98 | on an empty menu, the seeded items are the first of their names |
| Seeding.SeededFromEmpty | src/main/java/com/quickbite/config/DataInitializer.java:27-131 | on an empty store the routine yields two users, four items and three orders |
| Seeding.SeededPasswordsUnchecked | src/main/java/com/quickbite/config/DataInitializer.java:46-52 | the seeded passwords fail the entity's own password constraint |
| Seeding.SeedOrdersValid | src/main/java/com/quickbite/config/DataInitializer.java:87-131 | the sample orders keep the invariant |
| Seeding.SeededValid | src/main/java/com/quickbite/config/DataInitializer.java:27-41 | the routine keeps the invariant |
| Seeding.DataInitializer.constructor | src/main/java/com/quickbite/config/DataInitializer.java:19-25 | the initializer holds the store |
| Seeding.DataInitializer.Run | src/main/java/com/quickbite/config/DataInitializer.java:27-41 | updates the store exactly as Seeded does |
| Seeding.DataInitializer.InitializeUsers | src/main/java/com/quickbite/config/DataInitializer.java:43-57 | updates the store exactly as SeedUsers does |
| Seeding.DataInitializer.InitializeMenuItems | src/main/java/com/quickbite/config/DataInitializer.java:59-85 | updates the store exactly as SeedMenuItems does |
| Seeding.DataInitializer.InitializeOrders | src/main/java/com/quickbite/config/DataInitializer.java:87-131 | updates the store exactly as SeedOrders does |
| Security.Exactly | src/main/java/com/quickbite/config/SecurityConfig.java:30 | a literal pattern has one literal segment per path segment and no double star |
| Security.Under | src/main/java/com/quickbite/config/SecurityConfig.java:29 | a prefix followed by a double star |
| Security.MatchSegsIff | src/main/java/com/quickbite/config/SecurityConfig.java:26-45 | a path matches iff each pattern segment matches its path segment and the lengths agree, except that a double star takes any remaining segments |
| Security.EverythingUnderRoot | src/main/java/com/quickbite/config/SecurityConfig.java:26 | the root followed by a double star matches every path |
| Security.OrderStatusPattern | src/main/java/com/quickbite/config/SecurityConfig.java:40 | a single star stands for exactly one segment |
| Security.FirstMatch | src/main/java/com/quickbite/config/SecurityConfig.java:24-49 | the decisive rule is one that applies, and no earlier rule applies |
| Security.Permit | src/main/java/com/quickbite/config/CustomAuthenticationProvider.java:33 | Public grants everyone; other requirements need a login; a role rule grants exactly the caller whose "ROLE_"-prefixed authority matches |
| Security.Decide | src/main/java/com/quickbite/config/SecurityConfig.java:24-49 | a request no rule applies to is Forbidden; any other decision is what the requirement of the first applicable rule gives the caller |
| Security.DecidedBy | src/main/java/com/quickbite/config/SecurityConfig.java:24-49 | a rule that applies, after rules that do not, decides the request |
| Security.RuleApplies | src/main/java/com/quickbite/config/SecurityConfig.java:24-49 | a rule applies through any of its patterns when the method agrees |
| Security.EndsInAnyRequest | src/main/java/com/quickbite/config/SecurityConfig.java:48 | a table ending in anyRequest gives every request a rule |
| Security.Monotone | src/test/java/com/quickbite/config/TestSecurityConfig.java:27-50 | when every role rule asks for ADMIN, more privilege never loses access |
| Security.Table | src/main/java/com/quickbite/config/SecurityConfig.java:26-48 | both tables have eleven rules and end in anyRequest().authenticated() |
| Security.TablesEndInAnyRequest | src/main/java/com/quickbite/config/SecurityConfig.java:48 | every request reaches some rule in each table |
| Security.SecurityConfigGrantsEverything | src/main/java/com/quickbite/config/SecurityConfig.java:26 | the first rule decides every request, so everything is public |
| Security.SecurityConfigAdmitsMenuWrites | src/test/java/com/quickbite/controller/MenuControllerTest.java:272-299 | a STUDENT's POST /menu and an anonymous DELETE /menu/1 are granted, where the tests expect a refusal |
| Security.StaticPagesMiss | src/test/java/com/quickbite/config/TestSecurityConfig.java:29 | the public-page rule leaves alone every path outside the pages, /css and /js |
| Security.CorrectedMenuPostAdminOnly | src/main/java/com/quickbite/config/SecurityConfig.java:43 | without the catch-all pattern, POST /menu is granted exactly to ADMIN and forbidden to a STUDENT |
| Security.CorrectedMenuDeleteAdminOnly | src/main/java/com/quickbite/config/SecurityConfig.java:45 | without the catch-all pattern, DELETE /menu/{id} is granted exactly to ADMIN and needs a login first |
| Security.TestMenuRules | src/test/java/com/quickbite/config/TestSecurityConfig.java:33-46 | GET /menu is public; POST /menu, PUT /menu/{id} and DELETE /menu/{id} need ADMIN |
| Security.TestAuthPublic | src/test/java/com/quickbite/config/TestSecurityConfig.java:32 | everything under /auth is public for every method |
| Security.TestOrderListingsAdmin | src/test/java/com/quickbite/config/TestSecurityConfig.java:40 | /order/all and /order/pending need ADMIN for every method |
| Security.TestOrderStatusAdmin | src/test/java/com/quickbite/config/TestSecurityConfig.java:41 | PUT /order/{id}/status needs ADMIN |
| Security.TestPlaceOrderAuthenticated | src/test/java/com/quickbite/config/TestSecurityConfig.java:36 | POST /order/place needs a login |
| Security.TestOrdersOfUserAuthenticated | src/test/java/com/quickbite/config/TestSecurityConfig.java:37 | GET /order/user/{id} needs a login |
| Security.TestStaticAndFallback | src/test/java/com/quickbite/config/TestSecurityConfig.java:29-49 | pages, /css and /js are public; /admin/x, which no earlier rule names, needs a login |
| Security.TestFallback | src/test/java/com/quickbite/config/TestSecurityConfig.java:49 | any request that none of the ten earlier rules applies to is decided by the last rule and only needs a login |
| Security.TestRulesMonotone | src/test/java/com/quickbite/config/TestSecurityConfig.java:27-50 | allowed anonymously implies allowed for STUDENT, which implies allowed for ADMIN |
| Html.EscapeHtml | src/main/resources/static/js/orders.js:316-324 | the output is never shorter, equals the input's length iff the input has none of & < > " ', holds none of < > " ', and is empty iff the input is |
| Html.AdminEscapeHtml | src/main/resources/static/js/admin.js:448-457 | an absent text gives the empty string; a present one is escaped as the other two copies escape it |
| Html.EscapeRoundTrip | src/main/resources/static/js/menu.js:252-260 | decoding the five entities in the escaped text gives the text back |
| Html.EscapeInjective | src/main/resources/static/js/menu.js:252-260 | distinct texts are escaped differently |
| Html.EscapeAppend | src/main/resources/static/js/orders.js:324 | escaping is character by character: the escape of a concatenation is the concatenation of the escapes |
| Html.EscapePlainText | src/main/resources/static/js/orders.js:324 | a text without the five characters is shown as it is |
| Html.EscapeTagExample | src/main/resources/static/js/admin.js:450-457 | "<b>" is shown as "&lt;b&gt;" |
| Html.Lookup | src/main/resources/static/js/orders.js:132 | the table's entry for the key when there is a non-empty one; the fallback for a key the table lacks |
| AdminPage.StatusClass | src/main/resources/static/js/admin.js:342-348 | each of the five statuses gets its colour; 'secondary' exactly for every other string |
| AdminPage.Press | src/main/resources/static/js/admin.js:362-374 | Approve and Reject are enabled iff the status is exactly PENDING, Deliver iff exactly APPROVED; an enabled button requests its target status |
| AdminPage.TargetsAccepted | src/main/resources/static/js/admin.js:362-374 | every status a button requests passes the server's check and is stored as sent |
| AdminPage.PressAdvances | src/main/resources/static/js/admin.js:362-374 | every enabled button moves the order strictly forward |
| AdminPage.PressAllFromPending | src/main/resources/static/js/admin.js:362-374 | starting from PENDING the buttons reach only APPROVED, REJECTED and DELIVERED, never COMPLETED |
| AdminPage.FinalStatusesStay | src/main/resources/static/js/admin.js:362-374 | once an order is neither PENDING nor APPROVED, no button changes it |
| AdminPage.LowerCasePendingDisabled | src/main/resources/static/js/admin.js:365-369 | a lower-case "pending" disables every button |
| AdminPage.ServerAllowsWhatButtonsRefuse | src/main/java/com/quickbite/service/OrderService.java:82-98 | the server moves a DELIVERED order back to PENDING, which no button offers |
| AdminPage.DisplayQuantity | src/main/resources/static/js/admin.js:351 | zero or absent is shown as 1; any other quantity as it is; 0 is never shown |
| AdminPage.FourFieldDtoShowsOne | src/main/java/com/quickbite/controller/OrderController.java:54-59 | a DTO from the four-argument constructor is shown with quantity 1 |
| AdminPage.ProjectedQuantityShown | src/main/resources/static/js/admin.js:351 | a projected order shows its stored quantity when it is at least 1 |
| AdminPage.AddItemCheck | src/main/resources/static/js/admin.js:156-177 | accepted iff the trimmed name has 2 to 100 characters, the trimmed description at most 500 and the price is not at most 0; the first failing check, in the order name, description, price, gives its warning |
| AdminPage.AcceptedFormServerValid | src/main/resources/static/js/admin.js:156-179 | an accepted form with a price of at least 0.01 and no untrimmed control characters in the name posts a body the entity constraints accept |
| AdminPage.FormAcceptsTinyPrice | src/main/resources/static/js/admin.js:174 | a price of 0.005 passes the form and fails the server's inclusive 0.01 minimum |
| AdminPage.FormAcceptsUnparsablePrice | src/main/resources/static/js/admin.js:161-174 | an unparsable price passes the form and fails @NotNull |
| AdminPage.FormAcceptsControlCharacters | src/main/resources/static/js/admin.js:159-164 | a name of two control characters passes the form and fails @NotBlank |
| AdminPage.EditCheck | src/main/resources/static/js/admin.js:259-267 | accepted iff the trimmed name is non-empty and the price is not at most 0; both failures give one warning |
| AdminPage.EditLooserThanAdd | src/main/resources/static/js/admin.js:164-177 | whatever the add form accepts the edit form accepts; a one-letter name passes edit but not add |
| OrdersPage.StatusBadge | src/main/resources/static/js/orders.js:124-133 | the badge of one of the five statuses; the Unknown badge exactly for every other string |
| OrdersPage.StatusIcon | src/main/resources/static/js/orders.js:136-145 | the icon of one of the five statuses; the question-circle icon exactly for every other string |
| OrdersPage.StatusMessage | src/main/resources/static/js/orders.js:277-286 | the message of one of the five statuses; 'Order status unknown.' exactly for every other string |
| OrdersPage.PresentationDistinguishesStatuses | src/main/resources/static/js/orders.js:124-145 | distinct statuses get distinct badges, icons and messages |
| OrdersPage.LowerCaseStatusUnknown | src/main/resources/static/js/orders.js:132 | a lower-case status is unknown to all three lookups |
| OrdersPage.StatusListsAgree | src/main/java/com/quickbite/service/OrderService.java:101 | the page names the same five statuses as the server |
| OrdersPage.AcceptedStatusesKnown | src/main/resources/static/js/orders.js:124-133 | the upper-cased form of any status the server accepts has a known badge |
| OrdersPage.OrderSummary | src/main/resources/static/js/orders.js:148-153 | the total is the number of orders, and pending plus completed never exceeds it |
| OrdersPage.SummaryOfOne | src/main/resources/static/js/orders.js:151-153 | one order counts once in the total, as pending iff exactly PENDING, as completed iff COMPLETED or DELIVERED |
| OrdersPage.SummaryAppend | src/main/resources/static/js/orders.js:151-153 | the three counts add up over any split of the list |
| OrdersPage.AllPendingSummary | src/main/resources/static/js/orders.js:152-153 | a list of PENDING orders counts all of them as pending and none as completed |
| OrdersPage.OrderDetails | src/main/resources/static/js/orders.js:196-206 | the first order with that id; 'Order not found' exactly when no order has it |
| MenuPage.Current | src/main/resources/static/js/menu.js:90 | an unparsable or zero field counts as 1; any other value as it is |
| MenuPage.Increment | src/main/resources/static/js/menu.js:88-94 | a field holding 1 to 10 goes up by one, capped at 10; a value of 10 or more is left alone |
| MenuPage.Decrement | src/main/resources/static/js/menu.js:96-102 | a field holding 1 to 10 goes down by one, stopping at 1; a value of 1 or less, a blank included, is left alone |
| MenuPage.PressStaysInRange | src/main/resources/static/js/menu.js:88-102 | from a value in 1..10, any sequence of presses stays in 1..10 |
| MenuPage.ReachableInRange | src/main/resources/static/js/menu.js:59 | from the rendered value 1, any sequence of presses stays in 1..10 |
| MenuPage.PlusesCapAtTen | src/main/resources/static/js/menu.js:88-94 | n presses of plus add n, capped at 10 |
| MenuPage.MinusesStopAtOne | src/main/resources/static/js/menu.js:96-102 | n presses of minus take n away, stopping at 1 |
| MenuPage.OrderQuantity | src/main/resources/static/js/menu.js:117-123 | the guard posts the current value iff it lies in 1..10, otherwise warns |
| MenuPage.PostedQuantityValid | src/main/java/com/quickbite/dto/OrderRequest.java:15-16 | every quantity the page posts passes @Min(1) |
| MenuPage.ReachableQuantityPosted | src/main/resources/static/js/menu.js:59-123 | whatever the buttons did, the order button posts the field's value |
| MenuPage.QuantityInput.constructor | src/main/resources/static/js/menu.js:59 | a new field holds 1 |
| MenuPage.QuantityInput.IncrementQuantity | src/main/resources/static/js/menu.js:88-94 | overwrites the field in place exactly as Increment says |
| MenuPage.QuantityInput.DecrementQuantity | src/main/resources/static/js/menu.js:96-102 | overwrites the field in place exactly as Decrement says |
| Seqs.Find | src/main/java/com/quickbite/config/DataInitializer.java:90-92 | findFirst: the first element that satisfies the test, or none exactly when no element does |
| Seqs.Filter | src/main/resources/static/js/orders.js:152-153 | filter keeps exactly the elements that satisfy the test |
| Seqs.FilterAppend | src/main/resources/static/js/orders.js:152-153 | filtering a concatenation filters each part and keeps them in order, so a filtered listing keeps store order |
| Seqs.FilterOne | src/main/resources/static/js/orders.js:152-153 | a single element is kept exactly when it passes the test |
| Seqs.FilterAll | src/main/resources/static/js/orders.js:152-153 | when every element passes, the filter returns the whole list |
| Seqs.FilterNone | src/main/resources/static/js/orders.js:152-153 | when no element passes, the filter returns nothing |
| Seqs.DisjointCounts | src/main/resources/static/js/orders.js:152-153 | two tests that no element meets together select at most all the elements between them |
| Text.ToUpper | src/main/java/com/quickbite/service/OrderService.java:102 | upper-casing keeps the length |
| Text.ToUpperMatches | src/main/java/com/quickbite/service/OrderService.java:102 | an upper-case name equals the upper-cased status iff the two are equal ignoring case |
| Text.Trim | src/main/resources/static/js/admin.js:159-160 | no longer than the input; empty iff every character is blank; neither end is blank |
| Text.TrimIsSlice | src/main/resources/static/js/admin.js:159-160 | the result is a contiguous slice of the input with only blank characters before and after it, so the interior is kept as it is |
| Text.NotBlankMeansVisibleChar | src/main/java/com/quickbite/model/MenuItem.java:24 | not blank iff some character is above U+0020 |

## Left out

- Controllers (`UserController`, `MenuController`, `OrderController`): the HTTP mapping, sessions and bean-validation error translation are not modelled. The constraints are predicates that lemmas relate to the services.
- `OrderController`'s own handlers, which bypass `OrderService`, are not modelled; only their four-argument DTO appears (`AdminPage.FourFieldDtoShowsOne`).
- `Users.RegisterOn`: assumes the incoming user carries no id. A client-supplied id would make MongoDB's `save` insert under that id, or overwrite the stored record with that id; the model always assigns a fresh id.
- `Menus.AddMenuItemOn`: likewise, a client-supplied item id is not modelled; the item always gets a fresh id.
- The password encoder (BCrypt) is a parameter. `Users.Sound` (a password fits its own hash) is a hypothesis of the lemmas that need it. Salting and nondeterminism are not modelled.
- Null strings: username, password, names and statuses are plain strings. Only the optional fields (description, price on the request body, role, the order request's ids) have an absent case.
- `Model.UsernameValid`, `Model.PasswordValid`, `Model.NameValid`: bean validation's `@Size` counts UTF-16 code units and the model counts characters; they agree below U+10000. The password pattern's `.` does not match line terminators, so Java refuses "abcde\n@", which `Model.PasswordValid` accepts.
- Java's locale-sensitive `toUpperCase` is ASCII upper-casing. JavaScript string lengths count UTF-16 code units, and Dafny counts characters; they agree below U+10000.
- Prices are real numbers; double rounding is not modelled.
- `parseInt` and `parseFloat` are modelled by their result, an `Option` whose `None` stands for NaN; the parsing of the field text is not modelled.
- `escapeHtml` in orders.js and menu.js throws on a null argument; the model takes strings only there.
- The pages' lookup tables are plain maps. Keys inherited from JavaScript's Object prototype (`constructor`, `toString`) are treated as absent.
- URL matching works on paths already split into segments. URL decoding, trailing slashes, matrix parameters and the servlet-path details of Spring's matcher are not modelled. A refusal before login is `NeedsLogin` and after login `Forbidden`; the HTTP status codes (401 or 403) are not modelled.
- The authentication glue (`SessionAuthenticationFilter`, `CustomAuthenticationProvider`): the caller's role is a parameter, and only the "ROLE_" prefix of the authority is modelled, in `Security.Permit`.
- DOM updates, fetch calls, modals, notifications, localStorage and page navigation in the three scripts; `common.js` and `auth.js` entirely. The estimated total in `orders.js` is not modelled either.
- Logging, CORS, CSRF and JSON serialization are not modelled.
- Concurrency: the store is accessed by one operation at a time.
- `login` and `findByUsername` under duplicate usernames: `User.java` only declares a unique index, and whether it is built depends on configuration that is not part of this model. The model keeps usernames unique as part of `ValidDb` and returns the first match.

## Findings

| source | as written | input that shows it | evidently intended | confidence | as-written member | corrected member |
|---|---|---|---|---|---|---|
| src/main/java/com/quickbite/config/SecurityConfig.java:26 | the first, public rule lists the catch-all pattern "/" followed by a double star, which matches every path, so every later rule is unreachable and every request is granted | POST /menu by a STUDENT, and DELETE /menu/1 with no login, are both granted; MenuControllerTest.java:272-299 expects both refused | the public rule lists only the pages and static resources, as TestSecurityConfig.java:29 does, so the ADMIN rules apply | not executed | Security.SecurityConfigAdmitsMenuWrites | Security.CorrectedMenuPostAdminOnly |
