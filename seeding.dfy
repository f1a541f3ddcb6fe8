/** DataInitializer: the start-up routine that fills each empty collection
    with sample records. */
module Seeding {
  import opened Errors
  import opened Model
  import opened Repository

  const STUDENT_SEED := NewUser().(username := "user1", password := "user123", role := "STUDENT")
  const ADMIN_SEED := NewUser().(username := "admin", password := "admin123", role := "ADMIN")

  const PIZZA := MenuItem("", "Margherita Pizza", Some("Classic cheese & tomato"), 199.0, [])
  const BURGER := MenuItem("", "Veggie Burger", Some("Loaded with fresh veggies"), 149.0, [])
  const COFFEE := MenuItem("", "Cold Coffee", Some("Chilled & refreshing"), 99.0, [])
  const FRIES := MenuItem("", "French Fries", Some("Crispy golden fries"), 89.0, [])

  /** A sample order of `item` by `user`, copying the item's name. */
  function SampleOrder(user: User, item: MenuItem, quantity: int, status: string): (o: Order)
    ensures o.user == user.id && o.menuItem == item.id && o.itemName == item.name
    ensures o.quantity == quantity && o.status == status
  {
    Order("", item.name, quantity, status, user.id, item.id)
  }

  // ---- The three seeding steps, as functions of the state ----------------------

  /** `initializeUsers`: a student and an administrator, their passwords saved
      as plain text. */
  function SeedUsers(db: Db): (d: Db)
    ensures |d.users| == |db.users| + 2 && d.users[..|db.users|] == db.users
    ensures d.users[|db.users|] == User(NewId(db), "user1", "user123", "STUDENT", [])
    ensures d.users[|db.users| + 1] == User(NewId(db.(nextId := db.nextId + 1)), "admin", "admin123", "ADMIN", [])
    ensures d.menuItems == db.menuItems && d.orders == db.orders && d.nextId == db.nextId + 2
  {
    var d := AddUser(AddUser(db, STUDENT_SEED), ADMIN_SEED);
    assert d.users[..|db.users|] == db.users;
    d
  }

  /** `initializeMenuItems`: four items in a fixed order. */
  function SeedMenuItems(db: Db): (d: Db)
    ensures |d.menuItems| == |db.menuItems| + 4 && d.menuItems[..|db.menuItems|] == db.menuItems
    ensures var n := |db.menuItems|;
      && d.menuItems[n].name == "Margherita Pizza" && d.menuItems[n].price == 199.0
      && d.menuItems[n + 1].name == "Veggie Burger" && d.menuItems[n + 1].price == 149.0
      && d.menuItems[n + 2].name == "Cold Coffee" && d.menuItems[n + 2].price == 99.0
      && d.menuItems[n + 3].name == "French Fries" && d.menuItems[n + 3].price == 89.0
    ensures var n := |db.menuItems|;
      && d.menuItems[n].description == Some("Classic cheese & tomato")
      && d.menuItems[n + 1].description == Some("Loaded with fresh veggies")
      && d.menuItems[n + 2].description == Some("Chilled & refreshing")
      && d.menuItems[n + 3].description == Some("Crispy golden fries")
    ensures d.users == db.users && d.orders == db.orders && d.nextId == db.nextId + 4
  {
    var d := AddMenuItem(AddMenuItem(AddMenuItem(AddMenuItem(db, PIZZA), BURGER), COFFEE), FRIES);
    assert d.menuItems[..|db.menuItems|] == db.menuItems;
    d
  }

  /** The sample order of `item` when both lookups found their record, else none. */
  function SampleIfFound(user: Option<User>, item: Option<MenuItem>, quantity: int, status: string): (r: seq<Order>)
    ensures |r| == (if user.Some? && item.Some? then 1 else 0)
    ensures r != [] ==> r[0] == SampleOrder(user.value, item.value, quantity, status)
  {
    if user.Some? && item.Some? then [SampleOrder(user.value, item.value, quantity, status)] else []
  }

  /** The samples user1's lookup and the three item lookups allow: the pizza,
      burger and fries orders, in that order, each only when its item was
      found, and none when user1 is missing. */
  function SampleOrders(user1: Option<User>, pizza: Option<MenuItem>, burger: Option<MenuItem>, fries: Option<MenuItem>): (r: seq<Order>)
    ensures |r| <= 3
    ensures user1.None? ==> r == []
    ensures forall i :: 0 <= i < |r| ==> r[i].id == "" && r[i].user == user1.value.id
  {
    var a := SampleIfFound(user1, pizza, 2, "PENDING");
    var b := SampleIfFound(user1, burger, 1, "COMPLETED");
    var c := SampleIfFound(user1, fries, 3, "PENDING");
    a + b + c
  }

  /** The orders `initializeOrders` saves, before the repository gives them ids. */
  function PlannedOrders(db: Db): seq<Order> {
    SampleOrders(UserByName(db.users, "user1"), ItemByName(db.menuItems, "Margherita Pizza"),
      ItemByName(db.menuItems, "Veggie Burger"), ItemByName(db.menuItems, "French Fries"))
  }

  /** With items of three different names, each sample is present exactly
      when user1 and its item were both found. */
  lemma SampleOrdersWhich(user1: Option<User>, pizza: Option<MenuItem>, burger: Option<MenuItem>, fries: Option<MenuItem>)
    requires pizza.Some? ==> pizza.value.name == "Margherita Pizza"
    requires burger.Some? ==> burger.value.name == "Veggie Burger"
    requires fries.Some? ==> fries.value.name == "French Fries"
    ensures var r := SampleOrders(user1, pizza, burger, fries);
      (exists i :: 0 <= i < |r| && r[i].itemName == "Margherita Pizza" && r[i].quantity == 2 && r[i].status == "PENDING")
      <==> user1.Some? && pizza.Some?
    ensures var r := SampleOrders(user1, pizza, burger, fries);
      (exists i :: 0 <= i < |r| && r[i].itemName == "Veggie Burger" && r[i].quantity == 1 && r[i].status == "COMPLETED")
      <==> user1.Some? && burger.Some?
    ensures var r := SampleOrders(user1, pizza, burger, fries);
      (exists i :: 0 <= i < |r| && r[i].itemName == "French Fries" && r[i].quantity == 3 && r[i].status == "PENDING")
      <==> user1.Some? && fries.Some?
  {
    var a := SampleIfFound(user1, pizza, 2, "PENDING");
    var b := SampleIfFound(user1, burger, 1, "COMPLETED");
    var c := SampleIfFound(user1, fries, 3, "PENDING");
    var r := a + b + c;
    assert SampleOrders(user1, pizza, burger, fries) == r;
    assert forall i :: 0 <= i < |r| ==>
      (i < |a| && r[i] == a[0]) || (|a| <= i < |a| + |b| && r[i] == b[0]) || (|a| + |b| <= i && r[i] == c[0]);
    assert a != [] ==> r[0] == a[0];
    assert b != [] ==> r[|a|] == b[0];
    assert c != [] ==> r[|a| + |b|] == c[0];
  }

  /** A sample order is among the planned ones exactly when user1 and the
      first item of its name were both found. */
  lemma PlannedOrdersFound(db: Db)
    ensures var r, user1 := PlannedOrders(db), UserByName(db.users, "user1");
      (exists i :: 0 <= i < |r| && r[i].itemName == "Margherita Pizza" && r[i].quantity == 2 && r[i].status == "PENDING")
      <==> user1.Some? && ItemByName(db.menuItems, "Margherita Pizza").Some?
    ensures var r, user1 := PlannedOrders(db), UserByName(db.users, "user1");
      (exists i :: 0 <= i < |r| && r[i].itemName == "Veggie Burger" && r[i].quantity == 1 && r[i].status == "COMPLETED")
      <==> user1.Some? && ItemByName(db.menuItems, "Veggie Burger").Some?
    ensures var r, user1 := PlannedOrders(db), UserByName(db.users, "user1");
      (exists i :: 0 <= i < |r| && r[i].itemName == "French Fries" && r[i].quantity == 3 && r[i].status == "PENDING")
      <==> user1.Some? && ItemByName(db.menuItems, "French Fries").Some?
  {
    SampleOrdersWhich(UserByName(db.users, "user1"), ItemByName(db.menuItems, "Margherita Pizza"),
      ItemByName(db.menuItems, "Veggie Burger"), ItemByName(db.menuItems, "French Fries"));
  }

  /** `initializeOrders`: user1 and the first item of each name are looked up
      once, before anything is written; each sample order is saved only when
      both of its records were found. */
  function SeedOrders(db: Db): (d: Db)
    ensures d.users == db.users && d.menuItems == db.menuItems
    ensures UserByName(db.users, "user1").None? ==> d == db
    ensures |db.orders| <= |d.orders| <= |db.orders| + 3
    ensures var planned, n := PlannedOrders(db), |db.orders|;
      && |d.orders| == n + |planned| && d.orders[..n] == db.orders && d.nextId == db.nextId + |planned|
      && forall i :: 0 <= i < |planned| ==> d.orders[n + i] == planned[i].(id := NewId(db.(nextId := db.nextId + i)))
  {
    var user1 := UserByName(db.users, "user1");
    var pizza := ItemByName(db.menuItems, "Margherita Pizza");
    var burger := ItemByName(db.menuItems, "Veggie Burger");
    var fries := ItemByName(db.menuItems, "French Fries");
    var d1 := if user1.Some? && pizza.Some? then AddOrder(db, SampleOrder(user1.value, pizza.value, 2, "PENDING")) else db;
    var d2 := if user1.Some? && burger.Some? then AddOrder(d1, SampleOrder(user1.value, burger.value, 1, "COMPLETED")) else d1;
    var d := if user1.Some? && fries.Some? then AddOrder(d2, SampleOrder(user1.value, fries.value, 3, "PENDING")) else d2;
    SeededInOrder(db, user1, pizza, burger, fries, d1, d2, d);
    d
  }

  /** The three guarded saves of `initializeOrders` save the planned orders in order. */
  lemma SeededInOrder(db: Db, user1: Option<User>, pizza: Option<MenuItem>, burger: Option<MenuItem>, fries: Option<MenuItem>, d1: Db, d2: Db, d: Db)
    requires user1 == UserByName(db.users, "user1")
    requires pizza == ItemByName(db.menuItems, "Margherita Pizza")
    requires burger == ItemByName(db.menuItems, "Veggie Burger")
    requires fries == ItemByName(db.menuItems, "French Fries")
    requires d1 == if user1.Some? && pizza.Some? then AddOrder(db, SampleOrder(user1.value, pizza.value, 2, "PENDING")) else db
    requires d2 == if user1.Some? && burger.Some? then AddOrder(d1, SampleOrder(user1.value, burger.value, 1, "COMPLETED")) else d1
    requires d == if user1.Some? && fries.Some? then AddOrder(d2, SampleOrder(user1.value, fries.value, 3, "PENDING")) else d2
    ensures SavedInOrder(db, PlannedOrders(db), d)
  {
    var a := SampleIfFound(user1, pizza, 2, "PENDING");
    var b := SampleIfFound(user1, burger, 1, "COMPLETED");
    var c := SampleIfFound(user1, fries, 3, "PENDING");
    SaveNothing(db);
    SaveIfFound(db, db, [], user1, pizza, 2, "PENDING");
    assert [] + a == a;
    SaveIfFound(db, d1, a, user1, burger, 1, "COMPLETED");
    SaveIfFound(db, d2, a + b, user1, fries, 3, "PENDING");
    assert a + b + c == PlannedOrders(db);
  }

  /** `d` is `db` after saving `os`, one at a time and in order. */
  ghost predicate SavedInOrder(db: Db, os: seq<Order>, d: Db) {
    var n := |db.orders|;
    && |d.orders| == n + |os| && d.orders[..n] == db.orders && d.nextId == db.nextId + |os|
    && d.users == db.users && d.menuItems == db.menuItems
    && forall i :: 0 <= i < |os| ==> d.orders[n + i] == os[i].(id := NewId(db.(nextId := db.nextId + i)))
  }

  /** Saving at most one more order extends the saved sequence by it. */
  lemma SaveStep(db: Db, d: Db, os: seq<Order>, extra: seq<Order>)
    requires SavedInOrder(db, os, d)
    requires |extra| <= 1
    ensures SavedInOrder(db, os + extra, if extra == [] then d else AddOrder(d, extra[0]))
  {
    var n := |db.orders|;
    if extra != [] {
      var e := AddOrder(d, extra[0]);
      assert e.orders[..n] == d.orders[..n];
      assert (os + extra)[|os|] == extra[0];
    } else {
      assert os + extra == os;
    }
  }

  /** The guarded save of one sample order extends the saved sequence by
      that order exactly when it was found. */
  lemma SaveIfFound(db: Db, d: Db, os: seq<Order>, user: Option<User>, item: Option<MenuItem>, quantity: int, status: string)
    requires SavedInOrder(db, os, d)
    ensures SavedInOrder(db, os + SampleIfFound(user, item, quantity, status),
      if user.Some? && item.Some? then AddOrder(d, SampleOrder(user.value, item.value, quantity, status)) else d)
  {
    SaveStep(db, d, os, SampleIfFound(user, item, quantity, status));
  }

  lemma SaveNothing(db: Db)
    ensures SavedInOrder(db, [], db)
  {
    assert db.orders[..|db.orders|] == db.orders;
  }

  /** `run`: each step runs only when its collection is empty at that point. */
  function Seeded(db: Db): (d: Db)
    ensures |db.users| > 0 ==> d.users == db.users
    ensures |db.menuItems| > 0 ==> d.menuItems == db.menuItems
    ensures |db.orders| > 0 ==> d.orders == db.orders
    ensures |d.users| > 0 && |d.menuItems| > 0
    ensures |db.users| == 0 ==> d.users == SeedUsers(db).users
    ensures var d1 := if |db.users| == 0 then SeedUsers(db) else db;
      |db.menuItems| == 0 ==> d.menuItems == SeedMenuItems(d1).menuItems
    ensures var d1 := if |db.users| == 0 then SeedUsers(db) else db;
      var d2 := if |db.menuItems| == 0 then SeedMenuItems(d1) else d1;
      |db.orders| == 0 ==> d.orders == SeedOrders(d2).orders
  {
    var d1 := if |db.users| == 0 then SeedUsers(db) else db;
    var d2 := if |d1.menuItems| == 0 then SeedMenuItems(d1) else d1;
    if |d2.orders| == 0 then SeedOrders(d2) else d2
  }

  // ---- Properties of the routine -------------------------------------------------

  /** Running the routine a second time changes nothing. */
  lemma SeededIdempotent(db: Db)
    ensures Seeded(Seeded(db)) == Seeded(db)
  {
    var d1 := if |db.users| == 0 then SeedUsers(db) else db;
    var d2 := if |d1.menuItems| == 0 then SeedMenuItems(d1) else d1;
    var d := Seeded(db);
    assert Seeded(d) == if |d.orders| == 0 then SeedOrders(d) else d;
    if |d.orders| == 0 {
      assert d == SeedOrders(d2);
      SeedOrdersNothingAdded(d2);
    }
  }

  /** Seeding orders that adds none changes nothing. */
  lemma SeedOrdersNothingAdded(db: Db)
    requires |SeedOrders(db).orders| == |db.orders|
    ensures SeedOrders(db) == db
  {
  }

  /** When user1 and all three items are found, exactly the three sample
      orders are appended, in this order, all referencing user1. */
  lemma SeedOrdersAllFound(db: Db)
    requires UserByName(db.users, "user1").Some?
    requires ItemByName(db.menuItems, "Margherita Pizza").Some?
    requires ItemByName(db.menuItems, "Veggie Burger").Some?
    requires ItemByName(db.menuItems, "French Fries").Some?
    ensures var d := SeedOrders(db);
      var n := |db.orders|;
      var u := UserByName(db.users, "user1").value;
      && |d.orders| == n + 3 && d.orders[..n] == db.orders
      && d.orders[n].status == "PENDING" && d.orders[n].quantity == 2 && d.orders[n].itemName == "Margherita Pizza"
      && d.orders[n + 1].status == "COMPLETED" && d.orders[n + 1].quantity == 1 && d.orders[n + 1].itemName == "Veggie Burger"
      && d.orders[n + 2].status == "PENDING" && d.orders[n + 2].quantity == 3 && d.orders[n + 2].itemName == "French Fries"
      && d.orders[n].user == u.id && d.orders[n + 1].user == u.id && d.orders[n + 2].user == u.id
  {
    var d := SeedOrders(db);
    assert d.orders[..|db.orders|] == db.orders;
  }

  /** On an empty menu the seeded items are the first of their names. */
  lemma SeededMenuLookups(db: Db)
    requires |db.menuItems| == 0
    ensures var items := SeedMenuItems(db).menuItems;
      && ItemByName(items, "Margherita Pizza") == Some(items[0])
      && ItemByName(items, "Veggie Burger") == Some(items[1])
      && ItemByName(items, "French Fries") == Some(items[3])
  {
    var items := SeedMenuItems(db).menuItems;
    assert items[0].name == "Margherita Pizza";
    assert items[1].name == "Veggie Burger" && items[0].name != "Veggie Burger";
    assert items[3].name == "French Fries" && forall j :: 0 <= j < 3 ==> items[j].name != "French Fries";
  }

  /** On an empty store the routine yields two users, four items and three orders. */
  lemma SeededFromEmpty()
    ensures var d := Seeded(EmptyDb());
      && |d.users| == 2 && |d.menuItems| == 4 && |d.orders| == 3
      && d.users[0].username == "user1" && d.users[1].role == "ADMIN"
      && d.orders[0].status == "PENDING" && d.orders[0].quantity == 2 && d.orders[0].itemName == "Margherita Pizza"
      && d.orders[1].status == "COMPLETED" && d.orders[1].quantity == 1 && d.orders[1].itemName == "Veggie Burger"
      && d.orders[2].status == "PENDING" && d.orders[2].quantity == 3 && d.orders[2].itemName == "French Fries"
      && d.orders[0].user == d.users[0].id && d.orders[1].user == d.users[0].id && d.orders[2].user == d.users[0].id
  {
    var d1 := SeedUsers(EmptyDb());
    var d2 := SeedMenuItems(d1);
    assert Seeded(EmptyDb()) == SeedOrders(d2);
    assert d2.users == d1.users && |d2.orders| == 0;
    assert UserByName(d2.users, "user1") == Some(d2.users[0]);
    SeededMenuLookups(d1);
    SeedOrdersAllFound(d2);
    assert SeedOrders(d2).users == d2.users;
  }

  /** The seeded passwords would fail the entity's own password constraint:
      neither has one of the required symbols. */
  lemma SeededPasswordsUnchecked()
    ensures !PasswordValid(STUDENT_SEED.password) && !PasswordValid(ADMIN_SEED.password)
  {
    var s, a := STUDENT_SEED.password, ADMIN_SEED.password;
    assert s == "user123" && a == "admin123";
    assert forall i :: 0 <= i < |s| ==> !IsPasswordSymbol(s[i]);
    assert forall i :: 0 <= i < |a| ==> !IsPasswordSymbol(a[i]);
  }

  lemma SeedOrdersValid(db: Db)
    requires ValidDb(db)
    ensures ValidDb(SeedOrders(db))
  {
    var user1 := UserByName(db.users, "user1");
    if user1.Some? {
      var k :| 0 <= k < |db.users| && db.users[k] == user1.value;
      assert UserById(db.users, user1.value.id).Some?;
      var pizza := ItemByName(db.menuItems, "Margherita Pizza");
      var burger := ItemByName(db.menuItems, "Veggie Burger");
      var fries := ItemByName(db.menuItems, "French Fries");
      var d1 := db;
      if pizza.Some? {
        AddOrderValid(db, SampleOrder(user1.value, pizza.value, 2, "PENDING"));
        d1 := AddOrder(db, SampleOrder(user1.value, pizza.value, 2, "PENDING"));
      }
      var d2 := d1;
      if burger.Some? {
        AddOrderValid(d1, SampleOrder(user1.value, burger.value, 1, "COMPLETED"));
        d2 := AddOrder(d1, SampleOrder(user1.value, burger.value, 1, "COMPLETED"));
      }
      if fries.Some? {
        AddOrderValid(d2, SampleOrder(user1.value, fries.value, 3, "PENDING"));
      }
    }
  }

  /** The routine keeps the store invariant. */
  lemma SeededValid(db: Db)
    requires ValidDb(db)
    ensures ValidDb(Seeded(db))
  {
    var d1 := db;
    if |db.users| == 0 {
      AddUserValid(db, STUDENT_SEED);
      var a := AddUser(db, STUDENT_SEED);
      assert UserByName(a.users, "admin").None?;
      AddUserValid(a, ADMIN_SEED);
      d1 := SeedUsers(db);
    }
    var d2 := d1;
    if |d1.menuItems| == 0 {
      AddMenuItemValid(d1, PIZZA);
      var a := AddMenuItem(d1, PIZZA);
      AddMenuItemValid(a, BURGER);
      var b := AddMenuItem(a, BURGER);
      AddMenuItemValid(b, COFFEE);
      var c := AddMenuItem(b, COFFEE);
      AddMenuItemValid(c, FRIES);
      d2 := SeedMenuItems(d1);
    }
    if |d2.orders| == 0 {
      SeedOrdersValid(d2);
    }
  }

  // ---- The start-up component -------------------------------------------------------

  class DataInitializer {
    const store: Store

    constructor (store: Store)
      ensures this.store == store
    {
      this.store := store;
    }

    method Run()
      requires store.Valid()
      modifies store
      ensures store.Valid() && store.Snapshot() == Seeded(old(store.Snapshot()))
    {
      if |store.users| == 0 {
        InitializeUsers();
      }
      if |store.menuItems| == 0 {
        InitializeMenuItems();
      }
      if |store.orders| == 0 {
        InitializeOrders();
      }
    }

    method InitializeUsers()
      requires store.Valid() && |store.users| == 0
      modifies store
      ensures store.Valid() && store.Snapshot() == SeedUsers(old(store.Snapshot()))
    {
      var student := NewUser();
      student := student.(username := "user1", password := "user123", role := "STUDENT");
      var _ := store.InsertUser(student);
      assert UserByName(store.users, "admin").None?;
      var admin := NewUser();
      admin := admin.(username := "admin", password := "admin123", role := "ADMIN");
      var _ := store.InsertUser(admin);
    }

    method InitializeMenuItems()
      requires store.Valid()
      modifies store
      ensures store.Valid() && store.Snapshot() == SeedMenuItems(old(store.Snapshot()))
    {
      var _ := store.InsertMenuItem(PIZZA);
      var _ := store.InsertMenuItem(BURGER);
      var _ := store.InsertMenuItem(COFFEE);
      var _ := store.InsertMenuItem(FRIES);
    }

    method InitializeOrders()
      requires store.Valid()
      modifies store
      ensures store.Valid() && store.Snapshot() == SeedOrders(old(store.Snapshot()))
    {
      var user1 := UserByName(store.users, "user1");
      var pizza := ItemByName(store.menuItems, "Margherita Pizza");
      var burger := ItemByName(store.menuItems, "Veggie Burger");
      var fries := ItemByName(store.menuItems, "French Fries");
      if user1.None? {
        return;
      }
      assert UserById(store.users, user1.value.id).Some?;
      if pizza.Some? {
        var _ := store.InsertOrder(SampleOrder(user1.value, pizza.value, 2, "PENDING"));
      }
      if burger.Some? {
        var _ := store.InsertOrder(SampleOrder(user1.value, burger.value, 1, "COMPLETED"));
      }
      if fries.Some? {
        var _ := store.InsertOrder(SampleOrder(user1.value, fries.value, 3, "PENDING"));
      }
    }
  }
}
