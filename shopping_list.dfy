/** A user's shopping list: items created one at a time or in bulk (optionally
    pointing at a recipe ingredient), partially updated, toggled, deleted singly,
    by id list or all at once. The service works through a unit of work; its
    shopping-item table is the `items` map of the class, the recipe-ingredient
    table it only reads is the id set `ingredientIds`, and every write and commit
    it issues is appended, in order, to `log`. */
module ShoppingList {
  import opened Common

  datatype Item = Item(
    id: int,
    userId: int,
    name: string,
    quantity: string,
    recipeIngredientId: Option<int>,
    isPurchased: bool)

  /** The body of a create request (one element of a bulk request). */
  datatype ItemCreate = ItemCreate(name: string, quantity: string, recipeIngredientId: Option<int>)

  /** The body of a partial update; `None` is a field left out or sent as `null`. */
  datatype ItemUpdate = ItemUpdate(name: Option<string>, quantity: Option<string>, isPurchased: Option<bool>)

  /** A value of the update dictionary handed to the repository. */
  datatype ItemValue = TextValue(text: string) | FlagValue(flag: bool)

  /** A write to the unit of work's repositories, or its commit. */
  datatype UowCall =
    | CreateItem(userId: int, data: ItemCreate)
    | BulkCreateItems(userId: int, rows: seq<ItemCreate>)
    | UpdateItem(userId: int, itemId: int, changes: map<string, ItemValue>)
    | ToggleItem(userId: int, itemId: int)
    | DeleteItem(userId: int, itemId: int)
    | DeleteItems(userId: int, itemIds: seq<int>)
    | DeleteAllOf(userId: int)
    | Commit

  /** The stored row for a created item: owned by the user, not yet purchased. */
  function NewItem(id: int, userId: int, c: ItemCreate): Item
  {
    Item(id, userId, c.name, c.quantity, c.recipeIngredientId, false)
  }

  /** The rows a bulk insert stores, with consecutive ids from `next`, in input order. */
  function Inserted(next: int, userId: int, batch: seq<ItemCreate>): seq<Item>
  {
    seq(|batch|, i requires 0 <= i < |batch| => NewItem(next + i, userId, batch[i]))
  }

  /** The table after a bulk insert of `batch` with ids from `next`. */
  function StoredBulk(items: map<int, Item>, next: int, userId: int, batch: seq<ItemCreate>): map<int, Item>
    decreases |batch|
  {
    if |batch| == 0 then items
    else StoredBulk(items[next := NewItem(next, userId, batch[0])], next + 1, userId, batch[1..])
  }

  /** A bulk insert adds exactly the ids `next` .. `next + |batch| - 1`, each holding
      the item created from its position in the batch, and keeps every other row. */
  lemma {:induction false} StoredBulkAt(items: map<int, Item>, next: int, userId: int, batch: seq<ItemCreate>, id: int)
    ensures id in StoredBulk(items, next, userId, batch) <==> id in items || next <= id < next + |batch|
    ensures next <= id < next + |batch| ==>
              StoredBulk(items, next, userId, batch)[id] == Inserted(next, userId, batch)[id - next]
    ensures id in items && !(next <= id < next + |batch|) ==> StoredBulk(items, next, userId, batch)[id] == items[id]
    decreases |batch|
  {
    if |batch| > 0 {
      var first := NewItem(next, userId, batch[0]);
      StoredBulkAt(items[next := first], next + 1, userId, batch[1..], id);
      if next < id < next + |batch| {
        assert Inserted(next + 1, userId, batch[1..])[id - next - 1] == Inserted(next, userId, batch)[id - next];
      }
    }
  }

  /** Python truthiness of an optional id: present and not zero. */
  predicate TruthyId(id: Option<int>)
  {
    id.Some? && id.value != 0
  }

  /** The distinct truthy recipe-ingredient ids a bulk request refers to. */
  function IdsToCheck(batch: seq<ItemCreate>): set<int>
  {
    set i | 0 <= i < |batch| && TruthyId(batch[i].recipeIngredientId) :: batch[i].recipeIngredientId.value
  }

  lemma IdsToCheckSnoc(batch: seq<ItemCreate>, c: ItemCreate)
    ensures IdsToCheck(batch + [c])
            == IdsToCheck(batch) + (if TruthyId(c.recipeIngredientId) then {c.recipeIngredientId.value} else {})
  {
    var b := batch + [c];
    forall x | x in IdsToCheck(b)
      ensures x in IdsToCheck(batch) + (if TruthyId(c.recipeIngredientId) then {c.recipeIngredientId.value} else {})
    {
      var i :| 0 <= i < |b| && TruthyId(b[i].recipeIngredientId) && b[i].recipeIngredientId.value == x;
      if i < |batch| {
        assert b[i] == batch[i];
      }
    }
    forall x | x in IdsToCheck(batch) ensures x in IdsToCheck(b) {
      var i :| 0 <= i < |batch| && TruthyId(batch[i].recipeIngredientId) && batch[i].recipeIngredientId.value == x;
      assert b[i] == batch[i];
    }
    if TruthyId(c.recipeIngredientId) {
      assert b[|batch|] == c;
    }
  }

  /** The ids a bulk request checks are exactly the non-zero ids some item names. */
  lemma IdsToCheckMembers(batch: seq<ItemCreate>, x: int)
    ensures x in IdsToCheck(batch)
        <==> x != 0 && exists i :: 0 <= i < |batch| && batch[i].recipeIngredientId == Some(x)
  {
  }

  /** The length comparison of `bulk_create` fails exactly when some checked id is
      not a stored recipe ingredient. */
  lemma {:induction false} FoundFewerIff(ids: set<int>, known: set<int>)
    ensures |ids * known| != |ids| <==> exists x :: x in ids && x !in known
  {
    if exists x :: x in ids && x !in known {
      var x :| x in ids && x !in known;
      assert ids * known <= ids - {x};
      SubsetCard(ids * known, ids - {x});
    } else {
      assert ids * known == ids;
    }
  }

  lemma {:induction false} SubsetCard(a: set<int>, b: set<int>)
    requires a <= b
    ensures |a| <= |b|
  {
    assert b == a + (b - a);
  }

  /** The update dictionary: the fields of the patch whose value is not `None`. */
  function UpdateData(p: ItemUpdate): map<string, ItemValue>
  {
    (if p.name.Some? then map["name" := TextValue(p.name.value)] else map[])
    + (if p.quantity.Some? then map["quantity" := TextValue(p.quantity.value)] else map[])
    + (if p.isPurchased.Some? then map["is_purchased" := FlagValue(p.isPurchased.value)] else map[])
  }

  /** The repository's update: each key in the dictionary overwrites its column. */
  function WriteItemFields(it: Item, data: map<string, ItemValue>): Item
  {
    it.(name := if "name" in data && data["name"].TextValue? then data["name"].text else it.name,
        quantity := if "quantity" in data && data["quantity"].TextValue? then data["quantity"].text else it.quantity,
        isPurchased := if "is_purchased" in data && data["is_purchased"].FlagValue? then data["is_purchased"].flag
                       else it.isPurchased)
  }

  /** The item with each field the patch carries replaced. */
  function Patched(it: Item, p: ItemUpdate): Item
  {
    Item(it.id, it.userId,
         if p.name.Some? then p.name.value else it.name,
         if p.quantity.Some? then p.quantity.value else it.quantity,
         it.recipeIngredientId,
         if p.isPurchased.Some? then p.isPurchased.value else it.isPurchased)
  }

  /** The update dictionary holds exactly the fields that are not `None`; a sent
      `False` is kept, and the patch that sends nothing gives the empty dictionary. */
  lemma UpdateDataKeys(p: ItemUpdate)
    ensures "name" in UpdateData(p) <==> p.name.Some?
    ensures "quantity" in UpdateData(p) <==> p.quantity.Some?
    ensures "is_purchased" in UpdateData(p) <==> p.isPurchased.Some?
    ensures p.isPurchased == Some(false) ==> UpdateData(p)["is_purchased"] == FlagValue(false)
    ensures UpdateData(p) == map[] <==> p == ItemUpdate(None, None, None)
  {
    if UpdateData(p) == map[] {
      assert "name" !in UpdateData(p) && "quantity" !in UpdateData(p) && "is_purchased" !in UpdateData(p);
    }
  }

  /** Writing the update dictionary changes the item exactly as the patch says. */
  lemma WriteUpdateDataIsPatch(it: Item, p: ItemUpdate)
    ensures WriteItemFields(it, UpdateData(p)) == Patched(it, p)
  {
    UpdateDataKeys(p);
  }

  function Toggled(it: Item): Item
  {
    it.(isPurchased := !it.isPurchased)
  }

  /** The table after a user-scoped write to one item: applied when the item
      belongs to the user, otherwise no row matches. */
  function ScopedWrite(items: map<int, Item>, userId: int, itemId: int, f: Item -> Item): map<int, Item>
  {
    if itemId in items && items[itemId].userId == userId then items[itemId := f(items[itemId])] else items
  }

  /** Two toggles by the same user restore the table. */
  lemma ToggleTwiceRestores(items: map<int, Item>, userId: int, itemId: int)
    ensures ScopedWrite(ScopedWrite(items, userId, itemId, Toggled), userId, itemId, Toggled) == items
  {
    if itemId in items && items[itemId].userId == userId {
      assert Toggled(Toggled(items[itemId])) == items[itemId];
      assert items[itemId := items[itemId]] == items;
    }
  }

  /** `delete_by_ids`: the user's items whose id is listed are removed. */
  function DeletedByIds(items: map<int, Item>, userId: int, ids: seq<int>): map<int, Item>
  {
    map id | id in items && !(id in ids && items[id].userId == userId) :: items[id]
  }

  /** `delete_by_user_id`: all the user's items are removed. */
  function Cleared(items: map<int, Item>, userId: int): map<int, Item>
  {
    map id | id in items && items[id].userId != userId :: items[id]
  }

  /** The user's items, keyed by id, optionally only those not yet purchased. */
  function UserItems(items: map<int, Item>, userId: int, onlyNotPurchased: bool): map<int, Item>
  {
    map id | id in items && items[id].userId == userId && !(onlyNotPurchased && items[id].isPurchased) :: items[id]
  }

  /** A bulk delete removes only the listed items of that user: none of them is
      left, and every other item stays as it was. */
  lemma DeletedByIdsEffect(items: map<int, Item>, userId: int, ids: seq<int>)
    ensures forall i :: 0 <= i < |ids| ==> ids[i] !in UserItems(DeletedByIds(items, userId, ids), userId, false)
    ensures forall id :: id in items && (id !in ids || items[id].userId != userId) ==>
              id in DeletedByIds(items, userId, ids) && DeletedByIds(items, userId, ids)[id] == items[id]
    ensures DeletedByIds(items, userId, ids).Keys <= items.Keys
  {
  }

  /** Clearing a list is a bulk delete of every id on it, and leaves the user with
      no items. */
  lemma ClearedIsDeleteOfAllOwn(items: map<int, Item>, userId: int, ids: seq<int>)
    requires forall id :: id in UserItems(items, userId, false) <==> id in ids
    ensures Cleared(items, userId) == DeletedByIds(items, userId, ids)
    ensures UserItems(Cleared(items, userId), userId, false) == map[]
  {
    forall id | id in items
      ensures id in Cleared(items, userId) <==> id in DeletedByIds(items, userId, ids)
    {
      if items[id].userId == userId {
        assert id in UserItems(items, userId, false);
      }
    }
    assert UserItems(Cleared(items, userId), userId, false).Keys == {};
  }

  class ShoppingListItemService {
    /** the shopping-list item repository */
    var items: map<int, Item>
    /** the id the item table assigns to the next insert */
    var nextItemId: int
    /** every write and commit issued through the unit of work, in order */
    var log: seq<UowCall>
    /** the ids of the stored recipe ingredients */
    const ingredientIds: set<int>

    ghost predicate Valid()
      reads this
    {
      0 < nextItemId && forall id :: id in items ==> 0 < id < nextItemId && items[id].id == id
    }

    constructor (ingredientIds: set<int>)
      ensures Valid() && items == map[] && log == [] && this.ingredientIds == ingredientIds
    {
      items := map[];
      nextItemId := 1;
      log := [];
      this.ingredientIds := ingredientIds;
    }

    /** `get_all_by_user`: the total and the user's items; the page window of the
        repository is not part of this model. */
    method GetAllByUser(userId: int, onlyNotPurchased: bool) returns (count: int, listed: map<int, Item>)
      ensures listed == UserItems(items, userId, onlyNotPurchased)
      ensures count == |listed|
      ensures forall id :: id in listed ==> listed[id].userId == userId && id in items
    {
      listed := UserItems(items, userId, onlyNotPurchased);
      count := |listed|;
    }

    /** `create`: one item stored for the user, then a commit. */
    method Create(userId: int, c: ItemCreate) returns (r: Item)
      requires Valid()
      modifies this
      ensures Valid()
      ensures r == NewItem(old(nextItemId), userId, c) && old(nextItemId) !in old(items)
      ensures items == old(items)[r.id := r] && nextItemId == old(nextItemId) + 1
      ensures log == old(log) + [CreateItem(userId, c), Commit]
    {
      r := NewItem(nextItemId, userId, c);
      items := items[r.id := r];
      nextItemId := nextItemId + 1;
      log := log + [CreateItem(userId, c)];
      log := log + [Commit];
    }

    /** `bulk_create`: every item is tagged with the user in input order, and the
        truthy ingredient ids are collected; if some of them is not a stored
        ingredient nothing is written, otherwise one bulk insert and one commit. */
    method BulkCreate(userId: int, batch: seq<ItemCreate>) returns (r: Result<seq<Item>>)
      requires Valid()
      modifies this
      ensures Valid()
      ensures r.Err? <==> exists x :: x in IdsToCheck(batch) && x !in ingredientIds
      ensures r.Err? ==> r.error == RecipeIngredientNotFound
      ensures r.Err? ==> items == old(items) && nextItemId == old(nextItemId) && log == old(log)
      ensures r.Ok? ==>
                && r.value == Inserted(old(nextItemId), userId, batch)
                && items == StoredBulk(old(items), old(nextItemId), userId, batch)
                && nextItemId == old(nextItemId) + |batch|
                && log == old(log) + [BulkCreateItems(userId, batch), Commit]
    {
      var rows: seq<ItemCreate> := [];
      var toCheck: set<int> := {};
      var i := 0;
      while i < |batch|
        invariant 0 <= i <= |batch|
        invariant rows == batch[..i]
        invariant toCheck == IdsToCheck(batch[..i])
        invariant unchanged(this)
      {
        var item := batch[i];
        IdsToCheckSnoc(batch[..i], item);
        assert batch[..i + 1] == batch[..i] + [item];
        rows := rows + [item];
        if TruthyId(item.recipeIngredientId) {
          toCheck := toCheck + {item.recipeIngredientId.value};
        }
        i := i + 1;
      }
      assert batch[..i] == batch;
      FoundFewerIff(toCheck, ingredientIds);
      if toCheck != {} {
        var found := toCheck * ingredientIds;
        if |found| != |toCheck| {
          return Err(RecipeIngredientNotFound);
        }
      }
      var created := Inserted(nextItemId, userId, rows);
      forall id | id in StoredBulk(items, nextItemId, userId, rows)
        ensures 0 < id < nextItemId + |rows| && StoredBulk(items, nextItemId, userId, rows)[id].id == id
      {
        StoredBulkAt(items, nextItemId, userId, rows, id);
      }
      items := StoredBulk(items, nextItemId, userId, rows);
      nextItemId := nextItemId + |rows|;
      log := log + [BulkCreateItems(userId, rows)];
      log := log + [Commit];
      r := Ok(created);
    }

    /** `update`: the item is looked up by id alone; a patch with nothing in it is
        not written and returns the item as stored; otherwise the fields that are not
        `None` are written under the user's scope and committed. When the item
        belongs to another user the scoped write finds no row and the read schema
        refuses the missing value, after the commit. */
    method Update(itemId: int, userId: int, p: ItemUpdate) returns (r: Result<Item>)
      requires Valid()
      modifies this
      ensures Valid()
      ensures nextItemId == old(nextItemId)
      ensures itemId !in old(items) ==> r == Err(ShoppingListItemNotFound) && items == old(items) && log == old(log)
      ensures itemId in old(items) && UpdateData(p) == map[] ==>
                r == Ok(old(items)[itemId]) && items == old(items) && log == old(log)
      ensures itemId in old(items) && UpdateData(p) != map[] ==>
                && items == ScopedWrite(old(items), userId, itemId, (it: Item) => Patched(it, p))
                && log == old(log) + [UpdateItem(userId, itemId, UpdateData(p)), Commit]
                && (old(items)[itemId].userId == userId ==> r == Ok(Patched(old(items)[itemId], p)))
                && (old(items)[itemId].userId != userId ==> r == Err(SchemaValidationFailed))
    {
      if itemId !in items {
        return Err(ShoppingListItemNotFound);
      }
      var item := items[itemId];
      var data := UpdateData(p);
      if data != map[] {
        log := log + [UpdateItem(userId, itemId, data)];
        if item.userId == userId {
          WriteUpdateDataIsPatch(item, p);
          item := WriteItemFields(item, data);
          items := items[itemId := item];
          log := log + [Commit];
          return Ok(item);
        }
        log := log + [Commit];
        return Err(SchemaValidationFailed);
      }
      r := Ok(item);
    }

    /** `toggle_purchased`: not found for an unknown id; otherwise the user-scoped
        toggle and a commit. */
    method TogglePurchased(itemId: int, userId: int) returns (r: Result<Item>)
      requires Valid()
      modifies this
      ensures Valid()
      ensures nextItemId == old(nextItemId)
      ensures itemId !in old(items) ==> r == Err(ShoppingListItemNotFound) && items == old(items) && log == old(log)
      ensures itemId in old(items) ==>
                && items == ScopedWrite(old(items), userId, itemId, Toggled)
                && log == old(log) + [ToggleItem(userId, itemId), Commit]
                && (old(items)[itemId].userId == userId ==> r == Ok(Toggled(old(items)[itemId])))
                && (old(items)[itemId].userId != userId ==> r == Err(SchemaValidationFailed))
    {
      if itemId !in items {
        return Err(ShoppingListItemNotFound);
      }
      var item := items[itemId];
      if item.userId == userId {
        items := items[itemId := Toggled(item)];
        r := Ok(Toggled(item));
      } else {
        r := Err(SchemaValidationFailed);
      }
      log := log + [ToggleItem(userId, itemId)];
      log := log + [Commit];
    }

    /** `delete`: not found for an unknown id; otherwise the user-scoped delete and
        a commit. */
    method Delete(itemId: int, userId: int) returns (r: Result<()>)
      requires Valid()
      modifies this
      ensures Valid()
      ensures nextItemId == old(nextItemId)
      ensures r.Err? <==> itemId !in old(items)
      ensures r.Err? ==> r.error == ShoppingListItemNotFound && items == old(items) && log == old(log)
      ensures r.Ok? ==>
                && items == (if old(items)[itemId].userId == userId then old(items) - {itemId} else old(items))
                && log == old(log) + [DeleteItem(userId, itemId), Commit]
    {
      if itemId !in items {
        return Err(ShoppingListItemNotFound);
      }
      if items[itemId].userId == userId {
        items := items - {itemId};
      }
      log := log + [DeleteItem(userId, itemId)];
      log := log + [Commit];
      r := Ok(());
    }

    /** `delete_by_ids`: no existence check; the user's listed items go, then a commit. */
    method DeleteByIds(userId: int, ids: seq<int>)
      requires Valid()
      modifies this
      ensures Valid()
      ensures nextItemId == old(nextItemId)
      ensures items == DeletedByIds(old(items), userId, ids)
      ensures log == old(log) + [DeleteItems(userId, ids), Commit]
    {
      items := DeletedByIds(items, userId, ids);
      log := log + [DeleteItems(userId, ids)];
      log := log + [Commit];
    }

    /** `clear_user_shopping_list`: all the user's items go, then a commit. */
    method ClearUserShoppingList(userId: int)
      requires Valid()
      modifies this
      ensures Valid()
      ensures nextItemId == old(nextItemId)
      ensures items == Cleared(old(items), userId)
      ensures log == old(log) + [DeleteAllOf(userId), Commit]
    {
      items := Cleared(items, userId);
      log := log + [DeleteAllOf(userId)];
      log := log + [Commit];
    }
  }
}
