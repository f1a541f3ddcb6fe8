/** The document store behind the three repositories (users, menu_items,
    orders): id-keyed collections kept in insertion order, and a counter that
    supplies the id of every newly inserted record. */
module Repository {
  import opened Errors
  import opened Seqs
  import opened Model

  // ---- Fresh identifiers -------------------------------------------------

  function Digit(d: nat): char
    requires d < 10
  {
    ('0' as int + d) as char
  }

  function DigitValue(c: char): nat {
    if '0' <= c <= '9' then c as int - '0' as int else 0
  }

  /** The decimal rendering of n, the form new ids take. */
  function NatToDecimal(n: nat): (s: string)
    ensures |s| >= 1
    decreases n
  {
    if n < 10 then [Digit(n)] else NatToDecimal(n / 10) + [Digit(n % 10)]
  }

  /** Reads a string of digits back; every other character counts as 0. */
  function DecimalToNat(s: string): nat {
    if |s| == 0 then 0 else 10 * DecimalToNat(s[..|s| - 1]) + DigitValue(s[|s| - 1])
  }

  /** Reading back a rendered id gives its number, so distinct numbers give distinct ids. */
  lemma {:induction false} DecimalRoundTrip(n: nat)
    ensures DecimalToNat(NatToDecimal(n)) == n
    decreases n
  {
    var s := NatToDecimal(n);
    if n < 10 {
      assert s[..|s| - 1] == [];
    } else {
      DecimalRoundTrip(n / 10);
      assert s[..|s| - 1] == NatToDecimal(n / 10);
    }
  }

  // ---- The stored state ----------------------------------------------------

  /** The three collections in store (findAll) order and the next id number. */
  datatype Db = Db(users: seq<User>, menuItems: seq<MenuItem>, orders: seq<Order>, nextId: nat)

  /** What a service operation returns together with the state it leaves behind. */
  datatype Transition<T> = Transition(out: Result<T>, after: Db)

  function EmptyDb(): Db {
    Db([], [], [], 0)
  }

  /** The id the next inserted record receives. */
  function NewId(db: Db): Id {
    NatToDecimal(db.nextId)
  }

  /** An id was handed out by the counter before (its number is below the counter). */
  predicate Issued(db: Db, id: Id) {
    DecimalToNat(id) < db.nextId
  }

  ghost predicate IdsIssued(db: Db) {
    && (forall i :: 0 <= i < |db.users| ==> Issued(db, db.users[i].id))
    && (forall i :: 0 <= i < |db.menuItems| ==> Issued(db, db.menuItems[i].id))
    && (forall i :: 0 <= i < |db.orders| ==> Issued(db, db.orders[i].id))
  }

  ghost predicate IdsDistinct(db: Db) {
    && (forall i, j :: 0 <= i < j < |db.users| ==> db.users[i].id != db.users[j].id)
    && ItemIdsDistinct(db.menuItems)
    && (forall i, j :: 0 <= i < j < |db.orders| ==> db.orders[i].id != db.orders[j].id)
  }

  ghost predicate ItemIdsDistinct(s: seq<MenuItem>) {
    forall i, j :: 0 <= i < j < |s| ==> s[i].id != s[j].id
  }

  /** The unique index on User.username. */
  ghost predicate UsernamesDistinct(users: seq<User>) {
    forall i, j :: 0 <= i < j < |users| ==> users[i].username != users[j].username
  }

  /** Users are never deleted, so every order's user reference resolves. */
  ghost predicate OrdersHaveUsers(db: Db) {
    forall i :: 0 <= i < |db.orders| ==> UserById(db.users, db.orders[i].user).Some?
  }

  ghost predicate ValidDb(db: Db) {
    IdsIssued(db) && IdsDistinct(db) && UsernamesDistinct(db.users) && OrdersHaveUsers(db)
  }

  lemma EmptyDbValid()
    ensures ValidDb(EmptyDb())
  {
  }

  /** A new id differs from every stored one. */
  lemma NewIdFresh(db: Db)
    requires IdsIssued(db)
    ensures forall i :: 0 <= i < |db.users| ==> db.users[i].id != NewId(db)
    ensures forall i :: 0 <= i < |db.menuItems| ==> db.menuItems[i].id != NewId(db)
    ensures forall i :: 0 <= i < |db.orders| ==> db.orders[i].id != NewId(db)
    ensures DecimalToNat(NewId(db)) == db.nextId
  {
    DecimalRoundTrip(db.nextId);
  }

  // ---- Repository writes, as functions of the state ----------------------------

  /** `save` of a user without an id: appended under a fresh id. */
  function AddUser(db: Db, u: User): (d: Db)
    ensures d.users == db.users + [u.(id := NewId(db))] && d.nextId == db.nextId + 1
    ensures d.menuItems == db.menuItems && d.orders == db.orders
  {
    db.(users := db.users + [u.(id := NewId(db))], nextId := db.nextId + 1)
  }

  function AddMenuItem(db: Db, m: MenuItem): (d: Db)
    ensures d.menuItems == db.menuItems + [m.(id := NewId(db))] && d.nextId == db.nextId + 1
    ensures d.users == db.users && d.orders == db.orders
  {
    db.(menuItems := db.menuItems + [m.(id := NewId(db))], nextId := db.nextId + 1)
  }

  function AddOrder(db: Db, o: Order): (d: Db)
    ensures d.orders == db.orders + [o.(id := NewId(db))] && d.nextId == db.nextId + 1
    ensures d.users == db.users && d.menuItems == db.menuItems
  {
    db.(orders := db.orders + [o.(id := NewId(db))], nextId := db.nextId + 1)
  }

  /** `save` of a user that carries a stored id: that record is replaced in place. */
  function PutUser(db: Db, u: User): (d: Db)
    ensures |d.users| == |db.users| && d.nextId == db.nextId
    ensures forall i :: 0 <= i < |db.users| ==> d.users[i] == if db.users[i].id == u.id then u else db.users[i]
    ensures d.menuItems == db.menuItems && d.orders == db.orders
  {
    db.(users := seq(|db.users|, i requires 0 <= i < |db.users| => if db.users[i].id == u.id then u else db.users[i]))
  }

  function PutMenuItem(db: Db, m: MenuItem): (d: Db)
    ensures |d.menuItems| == |db.menuItems| && d.nextId == db.nextId
    ensures forall i :: 0 <= i < |db.menuItems| ==> d.menuItems[i] == if db.menuItems[i].id == m.id then m else db.menuItems[i]
    ensures d.users == db.users && d.orders == db.orders
  {
    db.(menuItems := seq(|db.menuItems|, i requires 0 <= i < |db.menuItems| => if db.menuItems[i].id == m.id then m else db.menuItems[i]))
  }

  function PutOrder(db: Db, o: Order): (d: Db)
    ensures |d.orders| == |db.orders| && d.nextId == db.nextId
    ensures forall i :: 0 <= i < |db.orders| ==> d.orders[i] == if db.orders[i].id == o.id then o else db.orders[i]
    ensures d.users == db.users && d.menuItems == db.menuItems
  {
    db.(orders := seq(|db.orders|, i requires 0 <= i < |db.orders| => if db.orders[i].id == o.id then o else db.orders[i]))
  }

  /** Selects the menu items whose id is not `id`. */
  function OtherThan(id: Id): MenuItem -> bool {
    (m: MenuItem) => m.id != id
  }

  /** `deleteById` on the menu collection; orders keep their references. */
  function RemoveMenuItem(db: Db, id: Id): (d: Db)
    ensures d.menuItems == Filter(db.menuItems, OtherThan(id))
    ensures d.users == db.users && d.orders == db.orders && d.nextId == db.nextId
  {
    db.(menuItems := Filter(db.menuItems, OtherThan(id)))
  }

  // ---- Each write keeps the store invariant ----------------------------------

  lemma AddUserValid(db: Db, u: User)
    requires ValidDb(db)
    requires UserByName(db.users, u.username).None?
    ensures ValidDb(AddUser(db, u))
  {
    NewIdFresh(db);
    var d := AddUser(db, u);
    var n := |db.users|;
    assert IdsIssued(d) by {
      forall i | 0 <= i < |d.users|
        ensures Issued(d, d.users[i].id)
      {
        if i < n { assert Issued(db, db.users[i].id); }
      }
    }
    assert UsernamesDistinct(d.users) by {
      forall i, j | 0 <= i < j < |d.users|
        ensures d.users[i].username != d.users[j].username
      {
        if j == n { assert db.users[i].username != u.username; }
      }
    }
    assert OrdersHaveUsers(d) by {
      forall i | 0 <= i < |d.orders|
        ensures UserById(d.users, d.orders[i].user).Some?
      {
        var w := UserById(db.users, db.orders[i].user).value;
        var k :| 0 <= k < |db.users| && db.users[k] == w;
        assert d.users[k].id == d.orders[i].user;
      }
    }
  }

  lemma AddMenuItemValid(db: Db, m: MenuItem)
    requires ValidDb(db)
    ensures ValidDb(AddMenuItem(db, m))
  {
    NewIdFresh(db);
  }

  lemma AddOrderValid(db: Db, o: Order)
    requires ValidDb(db)
    requires UserById(db.users, o.user).Some?
    ensures ValidDb(AddOrder(db, o))
  {
    NewIdFresh(db);
  }

  /** Two user lists with the same ids in the same places resolve the same ids. */
  lemma SameUserIds(a: seq<User>, b: seq<User>, id: Id)
    requires |a| == |b| && forall i :: 0 <= i < |a| ==> b[i].id == a[i].id
    requires UserById(a, id).Some?
    ensures UserById(b, id).Some?
  {
    var w := UserById(a, id).value;
    var k :| 0 <= k < |a| && a[k] == w;
    assert b[k].id == id;
  }

  /** Replacing a user under its own id and name keeps every id and name in its place. */
  lemma PutUserKeepsKeys(db: Db, u: User)
    requires forall i, j :: 0 <= i < j < |db.users| ==> db.users[i].id != db.users[j].id
    requires UserById(db.users, u.id).Some? && UserById(db.users, u.id).value.username == u.username
    ensures var d := PutUser(db, u);
      forall i :: 0 <= i < |db.users| ==> d.users[i].id == db.users[i].id && d.users[i].username == db.users[i].username
  {
    var d := PutUser(db, u);
    var w := UserById(db.users, u.id).value;
    var m :| 0 <= m < |db.users| && db.users[m] == w;
    forall i | 0 <= i < |db.users|
      ensures d.users[i].id == db.users[i].id && d.users[i].username == db.users[i].username
    {
      if db.users[i].id == u.id {
        assert db.users[i].id == db.users[m].id;
      }
    }
  }

  lemma PutUserValid(db: Db, u: User)
    requires ValidDb(db)
    requires UserById(db.users, u.id).Some? && UserById(db.users, u.id).value.username == u.username
    ensures ValidDb(PutUser(db, u))
  {
    var d := PutUser(db, u);
    PutUserKeepsKeys(db, u);
    assert IdsIssued(d) by {
      forall i | 0 <= i < |d.users|
        ensures Issued(d, d.users[i].id)
      {
        assert Issued(db, db.users[i].id);
      }
    }
    assert OrdersHaveUsers(d) by {
      forall i | 0 <= i < |d.orders|
        ensures UserById(d.users, d.orders[i].user).Some?
      {
        SameUserIds(db.users, d.users, db.orders[i].user);
      }
    }
  }

  lemma PutMenuItemValid(db: Db, m: MenuItem)
    requires ValidDb(db)
    requires ItemById(db.menuItems, m.id).Some?
    ensures ValidDb(PutMenuItem(db, m))
  {
  }

  /** Replacing an order keeps every order id where it was. */
  lemma PutOrderKeepsIds(db: Db, o: Order)
    requires OrderById(db.orders, o.id).Some?
    ensures forall i :: 0 <= i < |db.orders| ==> PutOrder(db, o).orders[i].id == db.orders[i].id
  {
  }

  /** Replacing an order by one whose user exists keeps every order's user resolvable. */
  lemma PutOrderKeepsUsers(db: Db, o: Order)
    requires OrdersHaveUsers(db) && UserById(db.users, o.user).Some?
    ensures OrdersHaveUsers(PutOrder(db, o))
  {
    var d := PutOrder(db, o);
    forall i | 0 <= i < |d.orders|
      ensures UserById(d.users, d.orders[i].user).Some?
    {
      if db.orders[i].id != o.id {
        assert d.orders[i] == db.orders[i];
      }
    }
  }

  /** Replacing an order keeps the ids issued and distinct. */
  lemma PutOrderKeepsIdsValid(db: Db, o: Order)
    requires IdsIssued(db) && IdsDistinct(db) && OrderById(db.orders, o.id).Some?
    ensures IdsIssued(PutOrder(db, o)) && IdsDistinct(PutOrder(db, o))
  {
    var d := PutOrder(db, o);
    PutOrderKeepsIds(db, o);
    forall i | 0 <= i < |d.orders|
      ensures Issued(d, d.orders[i].id)
    {
      assert Issued(db, db.orders[i].id);
    }
  }

  lemma PutOrderValid(db: Db, o: Order)
    requires ValidDb(db)
    requires OrderById(db.orders, o.id).Some? && UserById(db.users, o.user).Some?
    ensures ValidDb(PutOrder(db, o))
  {
    PutOrderKeepsIdsValid(db, o);
    PutOrderKeepsUsers(db, o);
  }

  lemma {:induction false} FilterKeepsIdsDistinct(s: seq<MenuItem>, p: MenuItem -> bool)
    requires ItemIdsDistinct(s)
    ensures ItemIdsDistinct(Filter(s, p))
  {
    if |s| > 0 {
      var t := Filter(s[1..], p);
      FilterKeepsIdsDistinct(s[1..], p);
      if p(s[0]) {
        var r := [s[0]] + t;
        assert Filter(s, p) == r;
        forall j | 0 <= j < |t|
          ensures s[0].id != t[j].id
        {
          assert t[j] in s[1..];
          var b :| 0 <= b < |s[1..]| && s[1..][b] == t[j];
          assert s[b + 1] == t[j];
        }
        forall i, j | 0 <= i < j < |r|
          ensures r[i].id != r[j].id
        {
          assert r[j] == t[j - 1];
          if i == 0 {
            assert r[i] == s[0];
          } else {
            assert r[i] == t[i - 1];
            assert t[i - 1].id != t[j - 1].id;
          }
        }
      }
    }
  }

  lemma RemoveMenuItemValid(db: Db, id: Id)
    requires ValidDb(db)
    ensures ValidDb(RemoveMenuItem(db, id))
  {
    FilterKeepsIdsDistinct(db.menuItems, OtherThan(id));
  }

  // ---- The store object ------------------------------------------------------

  /** The repositories' shared state, updated in place by `save` and `deleteById`. */
  class Store {
    var users: seq<User>
    var menuItems: seq<MenuItem>
    var orders: seq<Order>
    var nextId: nat

    function Snapshot(): Db
      reads this
    {
      Db(users, menuItems, orders, nextId)
    }

    ghost predicate Valid()
      reads this
    {
      ValidDb(Snapshot())
    }

    constructor ()
      ensures Valid() && Snapshot() == EmptyDb()
    {
      users, menuItems, orders, nextId := [], [], [], 0;
    }

    method InsertUser(u: User) returns (saved: User)
      requires Valid() && UserByName(users, u.username).None?
      modifies this
      ensures Valid() && Snapshot() == AddUser(old(Snapshot()), u)
      ensures saved == u.(id := NewId(old(Snapshot())))
    {
      AddUserValid(Snapshot(), u);
      saved := u.(id := NewId(Snapshot()));
      users, nextId := users + [saved], nextId + 1;
    }

    method InsertMenuItem(m: MenuItem) returns (saved: MenuItem)
      requires Valid()
      modifies this
      ensures Valid() && Snapshot() == AddMenuItem(old(Snapshot()), m)
      ensures saved == m.(id := NewId(old(Snapshot())))
    {
      AddMenuItemValid(Snapshot(), m);
      saved := m.(id := NewId(Snapshot()));
      menuItems, nextId := menuItems + [saved], nextId + 1;
    }

    method InsertOrder(o: Order) returns (saved: Order)
      requires Valid() && UserById(users, o.user).Some?
      modifies this
      ensures Valid() && Snapshot() == AddOrder(old(Snapshot()), o)
      ensures saved == o.(id := NewId(old(Snapshot())))
    {
      AddOrderValid(Snapshot(), o);
      saved := o.(id := NewId(Snapshot()));
      orders, nextId := orders + [saved], nextId + 1;
    }

    method UpdateUser(u: User)
      requires Valid()
      requires UserById(users, u.id).Some? && UserById(users, u.id).value.username == u.username
      modifies this
      ensures Valid() && Snapshot() == PutUser(old(Snapshot()), u)
    {
      PutUserValid(Snapshot(), u);
      var d := PutUser(Snapshot(), u);
      users := d.users;
      assert Snapshot() == d;
    }

    method UpdateMenuItem(m: MenuItem)
      requires Valid() && ItemById(menuItems, m.id).Some?
      modifies this
      ensures Valid() && Snapshot() == PutMenuItem(old(Snapshot()), m)
    {
      PutMenuItemValid(Snapshot(), m);
      var d := PutMenuItem(Snapshot(), m);
      menuItems := d.menuItems;
      assert Snapshot() == d;
    }

    method UpdateOrder(o: Order)
      requires Valid() && OrderById(orders, o.id).Some? && UserById(users, o.user).Some?
      modifies this
      ensures Valid() && Snapshot() == PutOrder(old(Snapshot()), o)
    {
      PutOrderValid(Snapshot(), o);
      var d := PutOrder(Snapshot(), o);
      orders := d.orders;
      assert Snapshot() == d;
    }

    method DeleteMenuItem(id: Id)
      requires Valid()
      modifies this
      ensures Valid() && Snapshot() == RemoveMenuItem(old(Snapshot()), id)
    {
      RemoveMenuItemValid(Snapshot(), id);
      var d := RemoveMenuItem(Snapshot(), id);
      menuItems := d.menuItems;
      assert Snapshot() == d;
    }
  }
}
