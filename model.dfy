/** The three stored entities (User, MenuItem, Order) and the bean-validation
    constraints declared on User and MenuItem, as predicates. */
module Model {
  import opened Errors
  import opened Text
  import opened Seqs

  /** Store-generated identifier. */
  type Id = string

  /** A stored user. `password` holds whatever was saved: an encoder hash for
      registered users, the raw text for the seeded ones. `orders` is the
      back-reference list, which no operation ever fills. */
  datatype User = User(id: Id, username: string, password: string, role: string, orders: seq<Id>)

  /** A menu item; a null description is `None`. */
  datatype MenuItem = MenuItem(id: Id, name: string, description: Option<string>, price: real, orders: seq<Id>)

  /** An order. `itemName` is the item's name copied when the order was made;
      `user` and `menuItem` are the ids the two references point to, and the
      menu item one may no longer exist. */
  datatype Order = Order(id: Id, itemName: string, quantity: int, status: string, user: Id, menuItem: Id)

  const DEFAULT_ROLE := "STUDENT"

  /** `new User()`: the null strings are empty, role and orders take their field defaults. */
  function NewUser(): (u: User)
    ensures u.role == "STUDENT" && u.orders == []
  {
    User("", "", "", DEFAULT_ROLE, [])
  }

  // ---- Repository queries ----------------------------------------------
  // findById and findByUsername over a collection in store order.

  function UserById(users: seq<User>, id: Id): (r: Option<User>)
    ensures r.None? <==> forall i :: 0 <= i < |users| ==> users[i].id != id
    ensures r.Some? ==> r.value in users && r.value.id == id
  {
    Find(users, (u: User) => u.id == id)
  }

  function UserByName(users: seq<User>, username: string): (r: Option<User>)
    ensures r.None? <==> forall i :: 0 <= i < |users| ==> users[i].username != username
    ensures r.Some? ==> r.value in users && r.value.username == username
  {
    Find(users, (u: User) => u.username == username)
  }

  function ItemById(items: seq<MenuItem>, id: Id): (r: Option<MenuItem>)
    ensures r.None? <==> forall i :: 0 <= i < |items| ==> items[i].id != id
    ensures r.Some? ==> r.value in items && r.value.id == id
  {
    Find(items, (m: MenuItem) => m.id == id)
  }

  /** `findAll().stream().filter(item -> item.getName().equals(name)).findFirst()`. */
  function ItemByName(items: seq<MenuItem>, name: string): (r: Option<MenuItem>)
    ensures r.None? <==> forall i :: 0 <= i < |items| ==> items[i].name != name
    ensures r.Some? ==> r.value in items && r.value.name == name
    ensures forall k :: 0 <= k < |items| && items[k].name == name && (forall j :: 0 <= j < k ==> items[j].name != name) ==> r == Some(items[k])
  {
    Find(items, (m: MenuItem) => m.name == name)
  }

  function OrderById(orders: seq<Order>, id: Id): (r: Option<Order>)
    ensures r.None? <==> forall i :: 0 <= i < |orders| ==> orders[i].id != id
    ensures r.Some? ==> r.value in orders && r.value.id == id
  {
    Find(orders, (o: Order) => o.id == id)
  }

  // ---- User constraints -------------------------------------------------

  /** The class [a-zA-Z0-9_]. */
  predicate IsWordChar(c: char) {
    ('a' <= c <= 'z') || ('A' <= c <= 'Z') || ('0' <= c <= '9') || c == '_'
  }

  /** One of the symbols @#$%^&+=!*() the password pattern asks for. */
  predicate IsPasswordSymbol(c: char) {
    c == '@' || c == '#' || c == '$' || c == '%' || c == '^' || c == '&' ||
    c == '+' || c == '=' || c == '!' || c == '*' || c == '(' || c == ')'
  }

  /** @NotBlank, @Size(min = 3, max = 50) and @Pattern("^[a-zA-Z0-9_]+$") together
      (the size bound already gives the pattern's one-character minimum). */
  predicate UsernameValid(s: string) {
    NotBlank(s) && 3 <= |s| <= 50 && forall i :: 0 <= i < |s| ==> IsWordChar(s[i])
  }

  /** @NotBlank, @Size(min = 6) and @Pattern("^(?=.*[@#$%^&+=!*()]).{6,}$") together
      (the pattern's length bound is the size bound). */
  predicate PasswordValid(s: string) {
    NotBlank(s) && |s| >= 6 && exists i :: 0 <= i < |s| && IsPasswordSymbol(s[i])
  }

  /** @Pattern("^(STUDENT|ADMIN)$"); a null role passes, as @Pattern accepts null. */
  predicate RoleValid(role: Option<string>) {
    role.None? || role.value == "STUDENT" || role.value == "ADMIN"
  }

  predicate UserValid(u: User) {
    UsernameValid(u.username) && PasswordValid(u.password) && RoleValid(Some(u.role))
  }

  /** The username constraints reduce to a length range and a character class:
      the @NotBlank check adds nothing. */
  lemma UsernameValidIff(s: string)
    ensures UsernameValid(s) <==> 3 <= |s| <= 50 && forall i :: 0 <= i < |s| ==> IsWordChar(s[i])
  {
    NotBlankMeansVisibleChar(s);
    if 3 <= |s| && IsWordChar(s[0]) {
      assert s[0] > ' ';
    }
  }

  /** The password constraints reduce to "at least six characters, one of them a symbol". */
  lemma PasswordValidIff(s: string)
    ensures PasswordValid(s) <==> |s| >= 6 && exists i :: 0 <= i < |s| && IsPasswordSymbol(s[i])
  {
    NotBlankMeansVisibleChar(s);
    if exists i :: 0 <= i < |s| && IsPasswordSymbol(s[i]) {
      var i :| 0 <= i < |s| && IsPasswordSymbol(s[i]);
      assert s[i] > ' ';
    }
  }

  /** The credentials the controller tests post are accepted. */
  lemma TestCredentialsValid()
    ensures UsernameValid("testuser")
    ensures PasswordValid("password@123")
  {
    var name, password := "testuser", "password@123";
    assert forall i :: 0 <= i < |name| ==> IsWordChar(name[i]);
    UsernameValidIff(name);
    assert password[8] == '@';
    PasswordValidIff(password);
  }

  // ---- MenuItem constraints ---------------------------------------------

  /** @NotBlank and @Size(min = 2, max = 100). */
  predicate NameValid(name: string) {
    NotBlank(name) && 2 <= |name| <= 100
  }

  /** @Size(max = 500); a null description passes. */
  predicate DescriptionValid(description: Option<string>) {
    description.None? || |description.value| <= 500
  }

  /** @NotNull and @DecimalMin("0.01"), whose bound is inclusive. */
  predicate PriceValid(price: Option<real>) {
    price.Some? && price.value >= 0.01
  }

  /** The constraints on a menu item body whose price may be null. */
  predicate MenuItemFieldsValid(name: string, description: Option<string>, price: Option<real>) {
    NameValid(name) && DescriptionValid(description) && PriceValid(price)
  }

  predicate MenuItemValid(item: MenuItem) {
    MenuItemFieldsValid(item.name, item.description, Some(item.price))
  }

  /** A name is accepted exactly when it has 2 to 100 characters, one of them visible. */
  lemma NameValidIff(name: string)
    ensures NameValid(name) <==> 2 <= |name| <= 100 && exists i :: 0 <= i < |name| && name[i] > ' '
  {
    NotBlankMeansVisibleChar(name);
  }

  /** Two spaces meet the length bound but not @NotBlank. */
  lemma BlankNameRejected()
    ensures !NameValid("  ")
  {
    NameValidIff("  ");
  }

  /** The boundary case the controller test accepts: name "AB", empty description, price 0.01. */
  lemma MinimumItemAccepted()
    ensures MenuItemFieldsValid("AB", Some(""), Some(0.01))
  {
    NameValidIff("AB");
    assert "AB"[0] > ' ';
  }

  /** The bodies the controller tests reject: name "A" with price -10, and price 0. */
  lemma InvalidItemsRejected()
    ensures !MenuItemFieldsValid("A", Some("Test"), Some(-10.0))
    ensures !MenuItemFieldsValid("Test Item", Some("Test"), Some(0.0))
    ensures !MenuItemFieldsValid("Test Item", Some("Test"), None)
  {
  }
}
