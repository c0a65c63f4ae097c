/**
 * src/services/update_item_service.py: the `update_items` link table. Rows are
 * keyed by the pair (update id, item id). The tables `updates` and `items`
 * appear only as the sets of their ids.
 */
module UpdateItems {
  import opened Wrappers
  import Tables

  /** A row of `update_items`. `UpdateItemCreate` has the same fields. */
  datatype UpdateItem = UpdateItem(updateId: int, itemId: int, quantityUpdate: int)

  function Key(u: UpdateItem): (int, int) {
    (u.updateId, u.itemId)
  }

  /** `UpdateItemUpdate`: `None` is a field the client did not set. */
  datatype Patch = Patch(quantityUpdate: Option<int>)

  /** One entry of `_dump(patch, exclude_unset=True)`. */
  datatype Field = QuantityUpdate(quantity: int)

  datatype Error = UpdateNotFound | ItemNotFound | UpdateItemNotFound | AlreadyExists

  /** The set fields of a patch. */
  function Dump(p: Patch): seq<Field> {
    if p.quantityUpdate.Some? then [QuantityUpdate(p.quantityUpdate.value)] else []
  }

  /** `setattr(link, key, value)`. */
  function Set(u: UpdateItem, f: Field): UpdateItem {
    u.(quantityUpdate := f.quantity)
  }

  /** The row a patch describes: the quantity replaced when set, the key kept. */
  function Merge(u: UpdateItem, p: Patch): UpdateItem {
    UpdateItem(u.updateId, u.itemId, p.quantityUpdate.GetOr(u.quantityUpdate))
  }

  /** The `setattr` loop produces the merged row, so the key never changes. */
  lemma {:induction false} PatchMerges(u: UpdateItem, p: Patch)
    ensures Tables.Applied(u, Dump(p), Set) == Merge(u, p)
    ensures Key(Merge(u, p)) == Key(u)
  {
    if p.quantityUpdate.Some? {
      Tables.AppliedOne(u, QuantityUpdate(p.quantityUpdate.value), Set);
    }
  }

  class UpdateItemService {
    var updateItems: map<(int, int), UpdateItem>
    var updates: set<int>
    var items: set<int>

    /** Each row sits under its own key and references existing rows. */
    ghost predicate Valid()
      reads this
    {
      forall k :: k in updateItems ==> Key(updateItems[k]) == k && k.0 in updates && k.1 in items
    }

    constructor (updates: set<int>, items: set<int>)
      ensures Valid()
      ensures updateItems == map[] && this.updates == updates && this.items == items
    {
      updateItems := map[];
      this.updates := updates;
      this.items := items;
    }

    /** `get_update_item`. */
    function GetUpdateItem(updateId: int, itemId: int): (r: Result<UpdateItem, Error>)
      reads this
      ensures r.Failure? <==> (updateId, itemId) !in updateItems
      ensures r.Failure? ==> r.error == UpdateItemNotFound
      ensures r.Success? && Valid() ==> r.value.updateId == updateId && r.value.itemId == itemId
    {
      if (updateId, itemId) in updateItems then Success(updateItems[(updateId, itemId)])
      else Failure(UpdateItemNotFound)
    }

    /** `list_update_items_by_update`: that update's rows, by increasing item id. */
    ghost function ListByUpdate(updateId: int): (rows: seq<UpdateItem>)
      reads this
      requires Valid()
      ensures forall u :: u in rows <==> u in updateItems.Values && u.updateId == updateId
      ensures forall i, j :: 0 <= i < j < |rows| ==> rows[i].itemId < rows[j].itemId
    {
      var rows := Tables.RowsWithFirst(updateItems, updateId);
      var ids := Tables.SecondsOf(updateItems, updateId);
      assert forall u :: u in updateItems.Values && u.updateId == updateId ==> u in rows by {
        forall u | u in updateItems.Values && u.updateId == updateId ensures u in rows {
          var k :| k in updateItems && updateItems[k] == u;
          var n :| 0 <= n < |ids| && ids[n] == k.1;
          assert rows[n] == u;
        }
      }
      rows
    }

    /** `list_update_items_by_item`: that item's rows, by increasing update id. */
    ghost function ListByItem(itemId: int): (rows: seq<UpdateItem>)
      reads this
      requires Valid()
      ensures forall u :: u in rows <==> u in updateItems.Values && u.itemId == itemId
      ensures forall i, j :: 0 <= i < j < |rows| ==> rows[i].updateId < rows[j].updateId
    {
      var rows := Tables.RowsWithSecond(updateItems, itemId);
      var ids := Tables.FirstsOf(updateItems, itemId);
      assert forall u :: u in updateItems.Values && u.itemId == itemId ==> u in rows by {
        forall u | u in updateItems.Values && u.itemId == itemId ensures u in rows {
          var k :| k in updateItems && updateItems[k] == u;
          var n :| 0 <= n < |ids| && ids[n] == k.0;
          assert rows[n] == u;
        }
      }
      rows
    }

    /**
     * `create_update_item`: the update, the item and the key are checked in
     * that order; a refused payload leaves the table as it was.
     */
    method CreateUpdateItem(payload: UpdateItem) returns (r: Result<UpdateItem, Error>)
      requires Valid()
      modifies this`updateItems
      ensures Valid()
      ensures r.Failure? ==> updateItems == old(updateItems)
      ensures payload.updateId !in updates ==> r == Failure(UpdateNotFound)
      ensures payload.updateId in updates && payload.itemId !in items ==> r == Failure(ItemNotFound)
      ensures (payload.updateId in updates && payload.itemId in items
               && Key(payload) in old(updateItems)) ==> r == Failure(AlreadyExists)
      ensures r.Success? <==> payload.updateId in updates && payload.itemId in items && Key(payload) !in old(updateItems)
      ensures r.Success? ==> r.value == payload && updateItems == old(updateItems)[Key(payload) := payload]
    {
      if payload.updateId !in updates {
        return Failure(UpdateNotFound);
      }
      if payload.itemId !in items {
        return Failure(ItemNotFound);
      }
      var existing := GetUpdateItem(payload.updateId, payload.itemId);
      if existing.Success? {
        return Failure(AlreadyExists);
      }
      updateItems := updateItems[Key(payload) := payload];
      r := Success(payload);
    }

    /** `update_update_item`: only the patched field of the addressed row changes. */
    method UpdateUpdateItem(updateId: int, itemId: int, patch: Patch) returns (r: Result<UpdateItem, Error>)
      requires Valid()
      modifies this`updateItems
      ensures Valid()
      ensures (updateId, itemId) !in old(updateItems) ==> r == Failure(UpdateItemNotFound) && updateItems == old(updateItems)
      ensures (updateId, itemId) in old(updateItems) ==>
                var merged := Merge(old(updateItems)[(updateId, itemId)], patch);
                r == Success(merged) && updateItems == old(updateItems)[(updateId, itemId) := merged]
    {
      var found := GetUpdateItem(updateId, itemId);
      if found.Failure? {
        return Failure(found.error);
      }
      var row := Tables.ApplyPatch(found.value, Dump(patch), Set);
      PatchMerges(found.value, patch);
      updateItems := updateItems[(updateId, itemId) := row];
      r := Success(row);
    }

    /** `delete_update_item`: removes exactly the addressed row. */
    method DeleteUpdateItem(updateId: int, itemId: int) returns (r: Result<(), Error>)
      requires Valid()
      modifies this`updateItems
      ensures Valid()
      ensures (updateId, itemId) !in old(updateItems) ==> r == Failure(UpdateItemNotFound) && updateItems == old(updateItems)
      ensures (updateId, itemId) in old(updateItems) ==>
                r == Success(()) && updateItems == old(updateItems) - {(updateId, itemId)}
    {
      var found := GetUpdateItem(updateId, itemId);
      if found.Failure? {
        return Failure(found.error);
      }
      updateItems := updateItems - {(updateId, itemId)};
      r := Success(());
    }
  }
}
