/** MenuService: listing, adding, updating and deleting menu items. */
module Menus {
  import opened Errors
  import opened Seqs
  import opened Model
  import opened Dto
  import opened Repository

  // ---- Queries ------------------------------------------------------------

  /** `getAllMenuItems`: the four-field DTO of each stored item, in store order. */
  function GetAllMenuItems(items: seq<MenuItem>): (r: seq<MenuItemDTO>)
    ensures |r| == |items|
    ensures forall i :: 0 <= i < |items| ==> r[i] == MenuItemDtoOf(items[i])
  {
    seq(|items|, i requires 0 <= i < |items| =>
      MenuItemDTO(items[i].id, items[i].name, items[i].description, items[i].price))
  }

  /** `findById`: the stored item or MenuItemNotFound(id). */
  function FindMenuItemById(items: seq<MenuItem>, id: Id): (r: Result<MenuItem>)
    ensures r.Ok? <==> exists i :: 0 <= i < |items| && items[i].id == id
    ensures r.Ok? ==> r.value in items && r.value.id == id
    ensures r.Err? ==> r.error == MenuItemNotFound(id)
  {
    match ItemById(items, id)
    case None => Err(MenuItemNotFound(id))
    case Some(m) => Ok(m)
  }

  // ---- Writes, as functions of the state --------------------------------------

  /** `addMenuItem`: the item is saved as it was given, under a fresh id; the
      service checks none of its fields. */
  function AddMenuItemOn(db: Db, item: MenuItem): (t: Transition<MenuItemDTO>)
    ensures t.out.Ok?
    ensures t.after.users == db.users && t.after.orders == db.orders
    ensures |t.after.menuItems| == |db.menuItems| + 1 && t.after.menuItems[..|db.menuItems|] == db.menuItems
    ensures var m := t.after.menuItems[|db.menuItems|];
      m == item.(id := NewId(db)) && t.out.value == MenuItemDtoOf(m)
  {
    var d := AddMenuItem(db, item);
    assert d.menuItems[..|db.menuItems|] == db.menuItems;
    Transition(Ok(MenuItemDtoOf(d.menuItems[|db.menuItems|])), d)
  }

  lemma AddMenuItemOnValid(db: Db, item: MenuItem)
    requires ValidDb(db)
    ensures ValidDb(AddMenuItemOn(db, item).after)
  {
    AddMenuItemValid(db, item);
  }

  /** An item the entity constraints refuse (one-letter name, negative price)
      is stored all the same when the service is called directly. */
  lemma AddMenuItemUnchecked(db: Db)
    ensures var item := MenuItem("", "A", Some("Test"), -10.0, []);
      && !MenuItemValid(item)
      && AddMenuItemOn(db, item).after.menuItems[|db.menuItems|].price == -10.0
  {
  }

  /** `updateMenuItem`: MenuItemNotFound for an unknown id; otherwise name,
      description and price are overwritten wholesale (an absent description
      clears the stored one) and the id and orders are kept. */
  function UpdateMenuItemOn(db: Db, id: Id, updated: MenuItem): (t: Transition<MenuItemDTO>)
    ensures t.out.Ok? <==> ItemById(db.menuItems, id).Some?
    ensures t.out.Err? ==> t.out.error == MenuItemNotFound(id) && t.after == db
    ensures t.out.Ok? ==>
      var existing := ItemById(db.menuItems, id).value;
      var m := existing.(name := updated.name, description := updated.description, price := updated.price);
      && m.id == id && m.orders == existing.orders
      && t.after == PutMenuItem(db, m) && t.out.value == MenuItemDtoOf(m)
  {
    match ItemById(db.menuItems, id)
    case None => Transition(Err(MenuItemNotFound(id)), db)
    case Some(existing) =>
      var m := existing.(name := updated.name, description := updated.description, price := updated.price);
      Transition(Ok(MenuItemDtoOf(m)), PutMenuItem(db, m))
  }

  /** An update changes the three fields of that one item and nothing else. */
  lemma UpdateMenuItemOnlyThatItem(db: Db, id: Id, updated: MenuItem)
    requires ValidDb(db)
    requires ItemById(db.menuItems, id).Some?
    ensures var d := UpdateMenuItemOn(db, id, updated).after;
      && |d.menuItems| == |db.menuItems| && d.users == db.users && d.orders == db.orders
      && forall i :: 0 <= i < |db.menuItems| ==>
        d.menuItems[i] == if db.menuItems[i].id == id
          then db.menuItems[i].(name := updated.name, description := updated.description, price := updated.price)
          else db.menuItems[i]
  {
    var m := ItemById(db.menuItems, id).value;
    var k :| 0 <= k < |db.menuItems| && db.menuItems[k] == m;
    forall i | 0 <= i < |db.menuItems| && db.menuItems[i].id == id
      ensures db.menuItems[i] == m
    {
      assert db.menuItems[i].id == db.menuItems[k].id;
    }
  }

  lemma UpdateMenuItemOnValid(db: Db, id: Id, updated: MenuItem)
    requires ValidDb(db)
    ensures ValidDb(UpdateMenuItemOn(db, id, updated).after)
  {
    var existing := ItemById(db.menuItems, id);
    if existing.Some? {
      var m := existing.value.(name := updated.name, description := updated.description, price := updated.price);
      assert ItemById(db.menuItems, m.id).Some?;
      PutMenuItemValid(db, m);
    }
  }

  /** An update without a description clears the stored one. */
  lemma UpdateClearsDescription(db: Db, id: Id, name: string, price: real)
    requires ItemById(db.menuItems, id).Some?
    ensures var t := UpdateMenuItemOn(db, id, MenuItem("", name, None, price, []));
      t.out.Ok? && t.out.value.description.None? && t.out.value.name == name && t.out.value.price == price
  {
  }

  /** `deleteMenuItem`: MenuItemNotFound for an unknown id; otherwise that item
      is removed and the orders that reference it are left as they are. */
  function DeleteMenuItemOn(db: Db, id: Id): (t: Transition<()>)
    ensures t.out.Ok? <==> ItemById(db.menuItems, id).Some?
    ensures t.out.Err? ==> t.out.error == MenuItemNotFound(id) && t.after == db
    ensures t.out.Ok? ==> t.after.users == db.users && t.after.orders == db.orders && t.after.nextId == db.nextId
    ensures t.out.Ok? ==> forall i :: 0 <= i < |t.after.menuItems| ==> t.after.menuItems[i].id != id
    ensures t.out.Ok? ==> forall i :: 0 <= i < |db.menuItems| && db.menuItems[i].id != id ==> db.menuItems[i] in t.after.menuItems
    ensures forall i :: 0 <= i < |t.after.menuItems| ==> t.after.menuItems[i] in db.menuItems
  {
    if ItemById(db.menuItems, id).None? then Transition(Err(MenuItemNotFound(id)), db)
    else Transition(Ok(()), RemoveMenuItem(db, id))
  }

  lemma DeleteMenuItemOnValid(db: Db, id: Id)
    requires ValidDb(db)
    ensures ValidDb(DeleteMenuItemOn(db, id).after)
  {
    if ItemById(db.menuItems, id).Some? {
      RemoveMenuItemValid(db, id);
    }
  }

  /** After its item is deleted, an order of that item no longer projects:
      the reference dangles. */
  lemma DeleteLeavesOrdersDangling(db: Db, id: Id, k: nat)
    requires ItemById(db.menuItems, id).Some?
    requires k < |db.orders| && db.orders[k].menuItem == id
    ensures var d := DeleteMenuItemOn(db, id).after;
      d.orders[k] == db.orders[k] && OrderDtoOf(d.orders[k], d.users, d.menuItems) == Err(UnresolvedReference(db.orders[k].id))
  {
  }

  // ---- The service object -------------------------------------------------------

  class MenuService {
    const store: Store

    constructor (store: Store)
      ensures this.store == store
    {
      this.store := store;
    }

    method AddMenuItem(item: MenuItem) returns (r: Result<MenuItemDTO>)
      requires store.Valid()
      modifies store
      ensures store.Valid()
      ensures Transition(r, store.Snapshot()) == AddMenuItemOn(old(store.Snapshot()), item)
    {
      var saved := store.InsertMenuItem(item);
      r := Ok(MenuItemDtoOf(saved));
    }

    method UpdateMenuItem(id: Id, updated: MenuItem) returns (r: Result<MenuItemDTO>)
      requires store.Valid()
      modifies store
      ensures store.Valid()
      ensures Transition(r, store.Snapshot()) == UpdateMenuItemOn(old(store.Snapshot()), id, updated)
    {
      var found := ItemById(store.menuItems, id);
      if found.None? {
        return Err(MenuItemNotFound(id));
      }
      var existing := found.value.(name := updated.name, description := updated.description, price := updated.price);
      store.UpdateMenuItem(existing);
      r := Ok(MenuItemDtoOf(existing));
    }

    method DeleteMenuItem(id: Id) returns (r: Result<()>)
      requires store.Valid()
      modifies store
      ensures store.Valid()
      ensures Transition(r, store.Snapshot()) == DeleteMenuItemOn(old(store.Snapshot()), id)
    {
      if ItemById(store.menuItems, id).None? {
        return Err(MenuItemNotFound(id));
      }
      store.DeleteMenuItem(id);
      r := Ok(());
    }
  }
}
