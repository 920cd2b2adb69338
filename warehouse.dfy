// The warehouse ledger (lib/warehouse-store.ts): an ordered list of items,
// with lookup, append, partial overwrite, removal and the guarded stock update.

module WarehouseStore {
  import opened Types
  import opened Seqs

  function ItemIds(items: seq<WarehouseItem>): seq<string> {
    seq(|items|, i requires 0 <= i < |items| => items[i].id)
  }

  /** No two items share an id (every id comes from a fresh `generateId`). */
  predicate UniqueIds(items: seq<WarehouseItem>) {
    forall i, j :: 0 <= i < j < |items| ==> items[i].id != items[j].id
  }

  /** The ledger's intended invariant: no stock count is negative. */
  predicate NonNegative(items: seq<WarehouseItem>) {
    forall i :: 0 <= i < |items| ==> items[i].stock >= 0
  }

  /** `getWarehouseItem`: the first item carrying `id`, if any. */
  function Lookup(items: seq<WarehouseItem>, id: string): (r: Option<WarehouseItem>)
    ensures r.None? <==> forall i :: 0 <= i < |items| ==> items[i].id != id
    ensures r.Some? ==> r.value.id == id
  {
    var k := IndexOf(ItemIds(items), id);
    assert forall i :: 0 <= i < |items| ==> ItemIds(items)[i] == items[i].id;
    if k < 0 then None else Some(items[k])
  }

  /** `hasStock`: the item `getWarehouseItem` finds has at least one unit. */
  function HasStock(items: seq<WarehouseItem>, id: string): (r: bool)
    ensures r <==> StockUpdateAccepted(items, id, -1)
    ensures r ==> exists i :: 0 <= i < |items| && items[i].id == id && items[i].stock > 0
  {
    match Lookup(items, id)
    case None => false
    case Some(item) => item.stock > 0
  }

  /** `getWarehouseItem` returns the first item with the id, whatever comes after it. */
  lemma {:induction false} LookupFindsFirst(items: seq<WarehouseItem>, id: string, i: int)
    requires 0 <= i < |items| && items[i].id == id
    requires forall j :: 0 <= j < i ==> items[j].id != id
    ensures Lookup(items, id) == Some(items[i])
  {
    var ids := ItemIds(items);
    assert ids[i] == id;
    var k := IndexOf(ids, id);
    assert forall j :: 0 <= j < |items| ==> ids[j] == items[j].id;
  }

  /** `hasStock` holds exactly when the first item with the id has stock above zero,
      which is exactly when `updateStock(id, -1)` would be accepted. */
  lemma {:induction false} HasStockMeans(items: seq<WarehouseItem>, id: string)
    ensures HasStock(items, id) <==> exists i :: 0 <= i < |items| && items[i].id == id && items[i].stock > 0
                                                && forall j :: 0 <= j < i ==> items[j].id != id
    ensures HasStock(items, id) <==> StockUpdateAccepted(items, id, -1)
  {
    var ids := ItemIds(items);
    var k := IndexOf(ids, id);
    if k >= 0 {
      forall j | 0 <= j < k
        ensures items[j].id != id
      {
        assert ids[..k][j] == items[j].id;
      }
      if i :| 0 <= i < |items| && items[i].id == id && items[i].stock > 0 && forall j :: 0 <= j < i ==> items[j].id != id {
        LookupFindsFirst(items, id, i);
      }
    }
  }

  /** `updateStock` accepts when the first item with `id` exists and its new stock is not negative. */
  predicate StockUpdateAccepted(items: seq<WarehouseItem>, id: string, quantity: int) {
    var found := Lookup(items, id);
    found.Some? && found.value.stock + quantity >= 0
  }

  /** The ledger `updateStock` leaves behind: when accepted, the item with `id` has
      `quantity` more units and a fresh `updatedAt`; otherwise nothing changes.
      It updates every item carrying `id`; `updateStock` writes only the `findIndex`
      position. The two agree because ids are unique (`UniqueIds`, the ledger's
      invariant), which `Warehouse.UpdateStock` proves. */
  function StockUpdated(items: seq<WarehouseItem>, id: string, quantity: int, now: string): (r: seq<WarehouseItem>)
    ensures |r| == |items|
    ensures forall j :: 0 <= j < |items| ==>
              r[j] == items[j] || (items[j].id == id && r[j] == items[j].(stock := items[j].stock + quantity, updatedAt := now))
    ensures !StockUpdateAccepted(items, id, quantity) ==> r == items
  {
    if StockUpdateAccepted(items, id, quantity) then
      seq(|items|, j requires 0 <= j < |items| =>
        if items[j].id == id then items[j].(stock := items[j].stock + quantity, updatedAt := now) else items[j])
    else items
  }

  /** `updateWarehouseItem`'s merge: supplied fields overwrite, `updatedAt` is refreshed. */
  function Patched(item: WarehouseItem, patch: ItemPatch, now: string): (r: WarehouseItem)
    ensures r.id == item.id && r.createdAt == item.createdAt && r.updatedAt == now
    ensures patch.stock.Some? ==> r.stock == patch.stock.value
    ensures patch == ItemPatch(None, None, None) ==> r == item.(updatedAt := now)
  {
    item.(name := patch.name.GetOr(item.name),
          price := patch.price.GetOr(item.price),
          stock := patch.stock.GetOr(item.stock),
          updatedAt := now)
  }

  /** The list `deleteWarehouseItem` writes back: every item whose id differs. */
  function WithoutItem(items: seq<WarehouseItem>, id: string): (r: seq<WarehouseItem>)
    ensures forall i :: 0 <= i < |r| ==> r[i].id != id && r[i] in items
    ensures forall i :: 0 <= i < |items| && items[i].id != id ==> items[i] in r
  {
    FilterMembers(items, (x: WarehouseItem) => x.id != id);
    Filter(items, (x: WarehouseItem) => x.id != id)
  }

  /** With unique ids, looking up an item's own id finds that very item. */
  lemma LookupUnique(items: seq<WarehouseItem>, i: int)
    requires UniqueIds(items) && 0 <= i < |items|
    ensures Lookup(items, items[i].id) == Some(items[i])
  {
    LookupFindsFirst(items, items[i].id, i);
  }

  /** Seen through `getWarehouseItem`, an accepted `updateStock` changes only the item
      with that id, and only its stock (by exactly `quantity`) and its timestamp. */
  lemma {:induction false} StockUpdatedObserved(items: seq<WarehouseItem>, id: string, quantity: int, now: string)
    requires UniqueIds(items)
    ensures var after := StockUpdated(items, id, quantity, now);
            && ItemIds(after) == ItemIds(items)
            && UniqueIds(after)
            && (forall other :: other != id ==> Lookup(after, other) == Lookup(items, other))
            && (StockUpdateAccepted(items, id, quantity) ==>
                  var was := Lookup(items, id).value;
                  Lookup(after, id) == Some(was.(stock := was.stock + quantity, updatedAt := now)))
  {
    var after := StockUpdated(items, id, quantity, now);
    assert ItemIds(after) == ItemIds(items);
    forall other | other != id
      ensures Lookup(after, other) == Lookup(items, other)
    {
      if k :| 0 <= k < |items| && items[k].id == other {
        LookupUnique(items, k);
        LookupUnique(after, k);
      }
    }
    if StockUpdateAccepted(items, id, quantity) {
      var k :| 0 <= k < |items| && items[k].id == id;
      LookupUnique(items, k);
      LookupUnique(after, k);
    }
  }

  /** Whatever the quantity, `updateStock` never drives a stock below zero. */
  lemma {:induction false} StockUpdatedKeepsNonNegative(items: seq<WarehouseItem>, id: string, quantity: int, now: string)
    requires UniqueIds(items)
    ensures NonNegative(items) ==> NonNegative(StockUpdated(items, id, quantity, now))
  {
    if NonNegative(items) && StockUpdateAccepted(items, id, quantity) {
      var after := StockUpdated(items, id, quantity, now);
      forall j | 0 <= j < |after|
        ensures after[j].stock >= 0
      {
        if items[j].id == id {
          LookupUnique(items, j);
        }
      }
    }
  }

  /** `updateStock` refuses a missing id, and any quantity that would leave the stock
      below zero, positive quantities included: it never clamps. A refusal changes nothing. */
  lemma {:induction false} StockUpdateRefusals(items: seq<WarehouseItem>, id: string, quantity: int, now: string)
    ensures (forall i :: 0 <= i < |items| ==> items[i].id != id) ==> !StockUpdateAccepted(items, id, quantity)
    ensures Lookup(items, id).Some? && Lookup(items, id).value.stock + quantity < 0 ==> !StockUpdateAccepted(items, id, quantity)
    ensures !StockUpdateAccepted(items, id, quantity) ==> StockUpdated(items, id, quantity, now) == items
  {
  }

  /** `deleteWarehouseItem` keeps the other items, in their order. */
  lemma {:induction false} WithoutItemKeepsOrder(a: seq<WarehouseItem>, b: seq<WarehouseItem>, id: string)
    ensures WithoutItem(a + b, id) == WithoutItem(a, id) + WithoutItem(b, id)
    ensures forall x :: x in WithoutItem(a + b, id) <==> x in a + b && x.id != id
  {
    FilterAppend(a, b, (x: WarehouseItem) => x.id != id);
    FilterMembers(a + b, (x: WarehouseItem) => x.id != id);
  }

  class Warehouse {
    var items: seq<WarehouseItem>

    ghost predicate Valid()
      reads this
    {
      UniqueIds(items)
    }

    /** `initializeWarehouse`: an empty ledger. */
    constructor ()
      ensures Valid() && items == []
    {
      items := [];
    }

    /** `addWarehouseItem`: appends one item with the fresh `id`; the stock is taken as given. */
    method AddItem(data: WarehouseItemFormData, id: string, now: string) returns (item: WarehouseItem)
      requires Valid()
      requires id !in ItemIds(items)
      modifies this
      ensures Valid()
      ensures item == WarehouseItem(id, data.name, data.price, data.stock, now, now)
      ensures items == old(items) + [item]
      ensures Lookup(items, id) == Some(item)
      ensures NonNegative(items) <==> NonNegative(old(items)) && data.stock >= 0
    {
      item := WarehouseItem(id, data.name, data.price, data.stock, now, now);
      assert forall i :: 0 <= i < |items| ==> items[i].id == ItemIds(items)[i];
      ghost var before := items;
      items := items + [item];
      assert items[|items| - 1] == item;
      assert forall i :: 0 <= i < |before| ==> items[i] == before[i];
    }

    /** `updateWarehouseItem`: overwrites the supplied fields of the item with `id`;
        the stock is set as given, without `UpdateStock`'s guard. */
    method UpdateItem(id: string, patch: ItemPatch, now: string) returns (r: Option<WarehouseItem>)
      requires Valid()
      modifies this
      ensures Valid()
      ensures Lookup(old(items), id).None? ==> r == None && items == old(items)
      ensures Lookup(old(items), id).Some? ==>
                && r == Some(Patched(Lookup(old(items), id).value, patch, now))
                && |items| == |old(items)|
                && forall j :: 0 <= j < |items| ==>
                     items[j] == if old(items)[j].id == id then r.value else old(items)[j]
      ensures NonNegative(old(items)) && (patch.stock.Some? ==> patch.stock.value >= 0) ==> NonNegative(items)
    {
      var k := IndexOf(ItemIds(items), id);
      if k == -1 {
        return None;
      }
      assert Lookup(items, id) == Some(items[k]);
      items := items[k := Patched(items[k], patch, now)];
      r := Some(items[k]);
    }

    /** `deleteWarehouseItem`: drops every item with `id`; reports whether there was one. */
    method DeleteItem(id: string) returns (ok: bool)
      requires Valid()
      modifies this
      ensures Valid()
      ensures ok <==> Lookup(old(items), id).Some?
      ensures items == WithoutItem(old(items), id)
      ensures !ok ==> items == old(items)
    {
      var filtered := WithoutItem(items, id);
      FilterKeepsAll(items, (x: WarehouseItem) => x.id != id);
      if |filtered| == |items| {
        return false;
      }
      FilterKeepsKeysDistinct(items, (x: WarehouseItem) => x.id != id, (x: WarehouseItem) => x.id);
      items := filtered;
      ok := true;
    }

    /** `updateStock`: adds `quantity` to the stock of the item with `id`, unless the
        item is missing or the result would be negative. */
    method UpdateStock(id: string, quantity: int, now: string) returns (ok: bool)
      requires Valid()
      modifies this
      ensures Valid()
      ensures ok == StockUpdateAccepted(old(items), id, quantity)
      ensures items == StockUpdated(old(items), id, quantity, now)
    {
      var k := IndexOf(ItemIds(items), id);
      if k == -1 {
        return false;
      }
      assert Lookup(items, id) == Some(items[k]);
      var newStock := items[k].stock + quantity;
      if newStock < 0 {
        return false;
      }
      ghost var before := items;
      items := items[k := items[k].(stock := newStock, updatedAt := now)];
      assert forall j :: 0 <= j < |before| && j != k ==> before[j].id != id;
      assert items == StockUpdated(before, id, quantity, now);
      ok := true;
    }
  }
}
