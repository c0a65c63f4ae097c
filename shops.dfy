/**
 * src/services/shop_service.py: the `shops` table, keyed by an
 * auto-incremented `id`. Every shop entry belongs to an item; the table
 * `items` appears only as the set of its ids. Dates are day numbers.
 */
module Shops {
  import opened Wrappers
  import Tables

  /** A row of `shops`. */
  datatype Shop = Shop(id: int, itemId: int, date: int, quantityShop: int)

  /** `ShopCreate`; its date defaults to the current day, which the caller supplies. */
  datatype ShopCreate = ShopCreate(itemId: int, date: int, quantityShop: int)

  /** `ShopUpdate`: `None` is a field the client did not set. */
  datatype Patch = Patch(itemId: Option<int>, date: Option<int>, quantityShop: Option<int>)

  /** One entry of `_dump(patch, exclude_unset=True)`. */
  datatype Field = ItemId(item: int) | Date(day: int) | QuantityShop(quantity: int)

  datatype Error = ShopNotFound | ItemNotFound

  /** The `limit` of `list_shops` when the caller gives none. */
  const DEFAULT_LIMIT := 50

  /** The set fields of a patch, in declaration order. */
  function Dump(p: Patch): seq<Field> {
    (if p.itemId.Some? then [ItemId(p.itemId.value)] else [])
    + (if p.date.Some? then [Date(p.date.value)] else [])
    + (if p.quantityShop.Some? then [QuantityShop(p.quantityShop.value)] else [])
  }

  /** `setattr(shop, key, value)`. */
  function Set(s: Shop, f: Field): Shop {
    match f
    case ItemId(v) => s.(itemId := v)
    case Date(v) => s.(date := v)
    case QuantityShop(v) => s.(quantityShop := v)
  }

  /** The row a patch describes: each set field replaced, every other field kept. */
  function Merge(s: Shop, p: Patch): Shop {
    Shop(s.id, p.itemId.GetOr(s.itemId), p.date.GetOr(s.date), p.quantityShop.GetOr(s.quantityShop))
  }

  /** The `setattr` loop produces the merged row, so the id never changes. */
  lemma {:induction false} PatchMerges(s: Shop, p: Patch)
    ensures Tables.Applied(s, Dump(p), Set) == Merge(s, p)
    ensures Merge(s, p).id == s.id
  {
    var d1 := if p.itemId.Some? then [ItemId(p.itemId.value)] else [];
    var d2 := if p.date.Some? then [Date(p.date.value)] else [];
    var d3 := if p.quantityShop.Some? then [QuantityShop(p.quantityShop.value)] else [];
    var r1 := if p.itemId.Some? then s.(itemId := p.itemId.value) else s;
    var r2 := if p.date.Some? then r1.(date := p.date.value) else r1;
    var r3 := if p.quantityShop.Some? then r2.(quantityShop := p.quantityShop.value) else r2;
    var e2 := d1 + d2;
    var e3 := e2 + d3;
    assert Tables.Applied(s, d1, Set) == r1 by {
      assert [] + d1 == d1;
      Tables.AppliedStep(s, [], d1, Set);
    }
    assert Tables.Applied(s, e2, Set) == r2 by { Tables.AppliedStep(s, d1, d2, Set); }
    assert Tables.Applied(s, e3, Set) == r3 by { Tables.AppliedStep(s, e2, d3, Set); }
    assert Dump(p) == e3;
  }

  class ShopService {
    var shops: map<int, Shop>
    var items: set<int>
    /** The next value of the `id` auto-increment. */
    var nextId: int

    /** Each row sits under its own id, below the counter, and references an existing item. */
    ghost predicate Valid()
      reads this
    {
      && 0 < nextId
      && forall id :: id in shops ==> shops[id].id == id && 0 < id < nextId && shops[id].itemId in items
    }

    constructor (items: set<int>)
      ensures Valid()
      ensures shops == map[] && this.items == items
    {
      shops := map[];
      this.items := items;
      nextId := 1;
    }

    /** `get_shop`. */
    function GetShop(shopId: int): (r: Result<Shop, Error>)
      reads this
      ensures r.Failure? <==> shopId !in shops
      ensures r.Failure? ==> r.error == ShopNotFound
      ensures r.Success? && Valid() ==> r.value.id == shopId && r.value.itemId in items
    {
      if shopId in shops then Success(shops[shopId]) else Failure(ShopNotFound)
    }

    /**
     * `list_shops`: the rows by increasing id, `skip` rows skipped and at most
     * `limit` kept. The row at position `i` has exactly `skip + i` rows with a
     * smaller id.
     */
    ghost function ListShops(skip: nat, limit: nat): (rows: seq<Shop>)
      reads this
      requires Valid()
      ensures skip >= |shops| ==> rows == []
      ensures skip < |shops| ==> |rows| == Tables.MinNat(limit, |shops| - skip)
      ensures forall i, j :: 0 <= i < j < |rows| ==> rows[i].id < rows[j].id
      ensures forall i :: 0 <= i < |rows| ==>
                rows[i].id in shops && shops[rows[i].id] == rows[i]
                && |Tables.Below(shops.Keys, rows[i].id)| == skip + i
    {
      var table := shops;
      var ids := Tables.KeyPage(table, skip, limit);
      seq(|ids|, i requires 0 <= i < |ids| => table[ids[i]])
    }

    /** `list_shops_by_item`: that item's rows, by increasing id. */
    ghost function ListShopsByItem(itemId: int): (rows: seq<Shop>)
      reads this
      requires Valid()
      ensures forall s :: s in rows <==> s in shops.Values && s.itemId == itemId
      ensures forall i, j :: 0 <= i < j < |rows| ==> rows[i].id < rows[j].id
    {
      var rows := Tables.RowsWhere(shops, (s: Shop) => s.itemId == itemId);
      var ids := Tables.Ascending(Tables.Matching(shops, (s: Shop) => s.itemId == itemId));
      assert forall n :: 0 <= n < |rows| ==> rows[n].id == ids[n];
      rows
    }

    /** `create_shop`: the item must exist; the new row takes the next id. */
    method CreateShop(payload: ShopCreate) returns (r: Result<Shop, Error>)
      requires Valid()
      modifies this`shops, this`nextId
      ensures Valid()
      ensures r.Failure? ==> shops == old(shops) && nextId == old(nextId)
      ensures r.Failure? <==> payload.itemId !in items
      ensures r.Failure? ==> r.error == ItemNotFound
      ensures r.Success? ==>
                && old(nextId) !in old(shops)
                && r.value == Shop(old(nextId), payload.itemId, payload.date, payload.quantityShop)
                && shops == old(shops)[old(nextId) := r.value]
    {
      if payload.itemId !in items {
        return Failure(ItemNotFound);
      }
      var shop := Shop(nextId, payload.itemId, payload.date, payload.quantityShop);
      shops := shops[nextId := shop];
      nextId := nextId + 1;
      r := Success(shop);
    }

    /**
     * `update_shop`: a patched item must exist; then only the patched fields
     * change.
     */
    method UpdateShop(shopId: int, patch: Patch) returns (r: Result<Shop, Error>)
      requires Valid()
      modifies this`shops
      ensures Valid()
      ensures r.Failure? ==> shops == old(shops)
      ensures shopId !in old(shops) ==> r == Failure(ShopNotFound)
      ensures (shopId in old(shops) && patch.itemId.Some? && patch.itemId.value !in items) ==> r == Failure(ItemNotFound)
      ensures r.Success? <==> shopId in old(shops) && (patch.itemId.Some? ==> patch.itemId.value in items)
      ensures r.Success? ==>
                var merged := Merge(old(shops)[shopId], patch);
                r.value == merged && shops == old(shops)[shopId := merged]
    {
      var found := GetShop(shopId);
      if found.Failure? {
        return Failure(found.error);
      }
      if patch.itemId.Some? {
        if patch.itemId.value !in items {
          return Failure(ItemNotFound);
        }
      }
      var shop := Tables.ApplyPatch(found.value, Dump(patch), Set);
      PatchMerges(found.value, patch);
      shops := shops[shopId := shop];
      r := Success(shop);
    }

    /** `delete_shop`: removes exactly the addressed row. */
    method DeleteShop(shopId: int) returns (r: Result<(), Error>)
      requires Valid()
      modifies this`shops
      ensures Valid()
      ensures shopId !in old(shops) ==> r == Failure(ShopNotFound) && shops == old(shops)
      ensures shopId in old(shops) ==> r == Success(()) && shops == old(shops) - {shopId}
    {
      var found := GetShop(shopId);
      if found.Failure? {
        return Failure(found.error);
      }
      shops := shops - {shopId};
      r := Success(());
    }
  }
}
