/**
 * src/services/order_item_service.py: the `order_items` link table. Rows are
 * keyed by the pair (commande id, item id). The tables `commande` and `items`
 * appear only as the sets of their ids.
 */
module OrderItems {
  import opened Wrappers
  import Tables

  /** `ParcelTypeEnum`. */
  datatype ParcelType = Lettre | PetitColis | MoyenColis | GrandColis

  /** A row of `order_items`. `OrderItemCreate` has the same fields. */
  datatype OrderItem = OrderItem(commandeId: int, itemId: int, quantityOrder: int, colis: ParcelType, comment: Option<string>)

  function Key(o: OrderItem): (int, int) {
    (o.commandeId, o.itemId)
  }

  /**
   * `OrderItemUpdate`: `None` is a field the client did not set. `comment` is
   * nullable, so a set comment is itself optional.
   */
  datatype Patch = Patch(quantityOrder: Option<int>, colis: Option<ParcelType>, comment: Option<Option<string>>)

  /** One entry of `_dump(patch, exclude_unset=True)`. */
  datatype Field = QuantityOrder(quantity: int) | Colis(parcel: ParcelType) | Comment(text: Option<string>)

  datatype Error = CommandeNotFound | ItemNotFound | OrderItemNotFound | AlreadyExists

  /** The set fields of a patch, in declaration order. */
  function Dump(p: Patch): seq<Field> {
    (if p.quantityOrder.Some? then [QuantityOrder(p.quantityOrder.value)] else [])
    + (if p.colis.Some? then [Colis(p.colis.value)] else [])
    + (if p.comment.Some? then [Comment(p.comment.value)] else [])
  }

  /** `setattr(link, key, value)`. */
  function Set(o: OrderItem, f: Field): OrderItem {
    match f
    case QuantityOrder(q) => o.(quantityOrder := q)
    case Colis(c) => o.(colis := c)
    case Comment(t) => o.(comment := t)
  }

  /** The row a patch describes: each set field replaced, every other field kept. */
  function Merge(o: OrderItem, p: Patch): OrderItem {
    OrderItem(o.commandeId, o.itemId, p.quantityOrder.GetOr(o.quantityOrder), p.colis.GetOr(o.colis), p.comment.GetOr(o.comment))
  }

  /** The `setattr` loop produces the merged row, so the key never changes. */
  lemma {:induction false} PatchMerges(o: OrderItem, p: Patch)
    ensures Tables.Applied(o, Dump(p), Set) == Merge(o, p)
    ensures Key(Merge(o, p)) == Key(o)
  {
    var a := if p.quantityOrder.Some? then [QuantityOrder(p.quantityOrder.value)] else [];
    var b := if p.colis.Some? then [Colis(p.colis.value)] else [];
    var c := if p.comment.Some? then [Comment(p.comment.value)] else [];
    Tables.AppliedConcat(o, a + b, c, Set);
    Tables.AppliedConcat(o, a, b, Set);
    var oa := Tables.Applied(o, a, Set);
    var ob := Tables.Applied(oa, b, Set);
    if a != [] {
      Tables.AppliedOne(o, a[0], Set);
    }
    if b != [] {
      Tables.AppliedOne(oa, b[0], Set);
    }
    if c != [] {
      Tables.AppliedOne(ob, c[0], Set);
    }
  }

  class OrderItemService {
    var orderItems: map<(int, int), OrderItem>
    var commandes: set<int>
    var items: set<int>

    /** Each row sits under its own key and references existing rows. */
    ghost predicate Valid()
      reads this
    {
      forall k :: k in orderItems ==> Key(orderItems[k]) == k && k.0 in commandes && k.1 in items
    }

    constructor (commandes: set<int>, items: set<int>)
      ensures Valid()
      ensures orderItems == map[] && this.commandes == commandes && this.items == items
    {
      orderItems := map[];
      this.commandes := commandes;
      this.items := items;
    }

    /** `get_order_item`. */
    function GetOrderItem(commandeId: int, itemId: int): (r: Result<OrderItem, Error>)
      reads this
      ensures r.Failure? <==> (commandeId, itemId) !in orderItems
      ensures r.Failure? ==> r.error == OrderItemNotFound
      ensures r.Success? && Valid() ==> r.value.commandeId == commandeId && r.value.itemId == itemId
    {
      if (commandeId, itemId) in orderItems then Success(orderItems[(commandeId, itemId)])
      else Failure(OrderItemNotFound)
    }

    /** `list_order_items_by_commande`: that commande's rows, by increasing item id. */
    ghost function ListByCommande(commandeId: int): (rows: seq<OrderItem>)
      reads this
      requires Valid()
      ensures forall o :: o in rows <==> o in orderItems.Values && o.commandeId == commandeId
      ensures forall i, j :: 0 <= i < j < |rows| ==> rows[i].itemId < rows[j].itemId
    {
      var rows := Tables.RowsWithFirst(orderItems, commandeId);
      var ids := Tables.SecondsOf(orderItems, commandeId);
      assert forall o :: o in orderItems.Values && o.commandeId == commandeId ==> o in rows by {
        forall o | o in orderItems.Values && o.commandeId == commandeId ensures o in rows {
          var k :| k in orderItems && orderItems[k] == o;
          var n :| 0 <= n < |ids| && ids[n] == k.1;
          assert rows[n] == o;
        }
      }
      rows
    }

    /** `list_order_items_by_item`: that item's rows, by increasing commande id. */
    ghost function ListByItem(itemId: int): (rows: seq<OrderItem>)
      reads this
      requires Valid()
      ensures forall o :: o in rows <==> o in orderItems.Values && o.itemId == itemId
      ensures forall i, j :: 0 <= i < j < |rows| ==> rows[i].commandeId < rows[j].commandeId
    {
      var rows := Tables.RowsWithSecond(orderItems, itemId);
      var ids := Tables.FirstsOf(orderItems, itemId);
      assert forall o :: o in orderItems.Values && o.itemId == itemId ==> o in rows by {
        forall o | o in orderItems.Values && o.itemId == itemId ensures o in rows {
          var k :| k in orderItems && orderItems[k] == o;
          var n :| 0 <= n < |ids| && ids[n] == k.0;
          assert rows[n] == o;
        }
      }
      rows
    }

    /**
     * `create_order_item`: the commande, the item and the key are checked in
     * that order; a refused payload leaves the table as it was.
     */
    method CreateOrderItem(payload: OrderItem) returns (r: Result<OrderItem, Error>)
      requires Valid()
      modifies this`orderItems
      ensures Valid()
      ensures r.Failure? ==> orderItems == old(orderItems)
      ensures payload.commandeId !in commandes ==> r == Failure(CommandeNotFound)
      ensures payload.commandeId in commandes && payload.itemId !in items ==> r == Failure(ItemNotFound)
      ensures (payload.commandeId in commandes && payload.itemId in items
               && Key(payload) in old(orderItems)) ==> r == Failure(AlreadyExists)
      ensures r.Success? <==> payload.commandeId in commandes && payload.itemId in items && Key(payload) !in old(orderItems)
      ensures r.Success? ==> r.value == payload && orderItems == old(orderItems)[Key(payload) := payload]
    {
      if payload.commandeId !in commandes {
        return Failure(CommandeNotFound);
      }
      if payload.itemId !in items {
        return Failure(ItemNotFound);
      }
      var existing := GetOrderItem(payload.commandeId, payload.itemId);
      if existing.Success? {
        return Failure(AlreadyExists);
      }
      orderItems := orderItems[Key(payload) := payload];
      r := Success(payload);
    }

    /** `update_order_item`: only the patched fields of the addressed row change. */
    method UpdateOrderItem(commandeId: int, itemId: int, patch: Patch) returns (r: Result<OrderItem, Error>)
      requires Valid()
      modifies this`orderItems
      ensures Valid()
      ensures (commandeId, itemId) !in old(orderItems) ==> r == Failure(OrderItemNotFound) && orderItems == old(orderItems)
      ensures (commandeId, itemId) in old(orderItems) ==>
                var merged := Merge(old(orderItems)[(commandeId, itemId)], patch);
                r == Success(merged) && orderItems == old(orderItems)[(commandeId, itemId) := merged]
    {
      var found := GetOrderItem(commandeId, itemId);
      if found.Failure? {
        return Failure(found.error);
      }
      var row := Tables.ApplyPatch(found.value, Dump(patch), Set);
      PatchMerges(found.value, patch);
      orderItems := orderItems[(commandeId, itemId) := row];
      r := Success(row);
    }

    /** `delete_order_item`: removes exactly the addressed row. */
    method DeleteOrderItem(commandeId: int, itemId: int) returns (r: Result<(), Error>)
      requires Valid()
      modifies this`orderItems
      ensures Valid()
      ensures (commandeId, itemId) !in old(orderItems) ==> r == Failure(OrderItemNotFound) && orderItems == old(orderItems)
      ensures (commandeId, itemId) in old(orderItems) ==>
                r == Success(()) && orderItems == old(orderItems) - {(commandeId, itemId)}
    {
      var found := GetOrderItem(commandeId, itemId);
      if found.Failure? {
        return Failure(found.error);
      }
      orderItems := orderItems - {(commandeId, itemId)};
      r := Success(());
    }
  }
}
