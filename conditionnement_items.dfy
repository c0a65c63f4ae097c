/**
 * src/services/conditionnement_item_service.py: the `conditionnement_items`
 * link table. Rows are keyed by the pair (conditionnement id, item id), and
 * every row keeps `quantity_min <= quantity_max`. The tables
 * `conditionnement` and `items` appear only as the sets of their ids.
 */
module ConditionnementItems {
  import opened Wrappers
  import Tables

  /** A row of `conditionnement_items`. `ConditionnementItemCreate` has the same fields. */
  datatype Link = Link(conditionnementId: int, itemId: int, quantityMin: int, quantityMax: int)

  function Key(l: Link): (int, int) {
    (l.conditionnementId, l.itemId)
  }

  /** `ConditionnementItemUpdate`: `None` is a field the client did not set. */
  datatype Patch = Patch(quantityMin: Option<int>, quantityMax: Option<int>)

  /** One entry of `_dump(patch, exclude_unset=True)`. */
  datatype Field = QuantityMin(min: int) | QuantityMax(max: int)

  datatype Error =
    | ConditionnementNotFound
    | ItemNotFound
    | LinkNotFound
    | AlreadyExists
    | QuantityRange

  /** `_validate_qty_range`: `None` when the range is accepted. */
  function ValidateQtyRange(quantityMin: int, quantityMax: int): (r: Option<Error>)
    ensures r.Some? <==> quantityMin > quantityMax
    ensures r.Some? ==> r.value == QuantityRange
  {
    if quantityMin > quantityMax then Some(QuantityRange) else None
  }

  /** The set fields of a patch, in declaration order. */
  function Dump(p: Patch): seq<Field> {
    (if p.quantityMin.Some? then [QuantityMin(p.quantityMin.value)] else [])
    + (if p.quantityMax.Some? then [QuantityMax(p.quantityMax.value)] else [])
  }

  /** `setattr(link, key, value)`. */
  function Set(l: Link, f: Field): Link {
    match f
    case QuantityMin(v) => l.(quantityMin := v)
    case QuantityMax(v) => l.(quantityMax := v)
  }

  /** The row a patch describes: each set field replaced, every other field kept. */
  function Merge(l: Link, p: Patch): Link {
    Link(l.conditionnementId, l.itemId, p.quantityMin.GetOr(l.quantityMin), p.quantityMax.GetOr(l.quantityMax))
  }

  /** The `setattr` loop produces the merged row, so the key never changes. */
  lemma {:induction false} PatchMerges(l: Link, p: Patch)
    ensures Tables.Applied(l, Dump(p), Set) == Merge(l, p)
    ensures Key(Merge(l, p)) == Key(l)
  {
    var a := if p.quantityMin.Some? then [QuantityMin(p.quantityMin.value)] else [];
    var b := if p.quantityMax.Some? then [QuantityMax(p.quantityMax.value)] else [];
    Tables.AppliedConcat(l, a, b, Set);
    if a != [] {
      Tables.AppliedOne(l, a[0], Set);
    }
    if b != [] {
      Tables.AppliedOne(Tables.Applied(l, a, Set), b[0], Set);
    }
  }

  class ConditionnementItemService {
    var links: map<(int, int), Link>
    var conditionnements: set<int>
    var items: set<int>

    /** Each row sits under its own key, references existing rows and keeps its range. */
    ghost predicate Valid()
      reads this
    {
      forall k :: k in links ==>
        && Key(links[k]) == k
        && k.0 in conditionnements && k.1 in items
        && links[k].quantityMin <= links[k].quantityMax
    }

    constructor (conditionnements: set<int>, items: set<int>)
      ensures Valid()
      ensures links == map[] && this.conditionnements == conditionnements && this.items == items
    {
      links := map[];
      this.conditionnements := conditionnements;
      this.items := items;
    }

    /** `get_link`. */
    function GetLink(conditionnementId: int, itemId: int): (r: Result<Link, Error>)
      reads this
      ensures r.Failure? <==> (conditionnementId, itemId) !in links
      ensures r.Failure? ==> r.error == LinkNotFound
      ensures r.Success? && Valid() ==>
                && r.value.conditionnementId == conditionnementId && r.value.itemId == itemId
                && r.value.quantityMin <= r.value.quantityMax
    {
      if (conditionnementId, itemId) in links then Success(links[(conditionnementId, itemId)])
      else Failure(LinkNotFound)
    }

    /** `list_by_conditionnement`: that conditionnement's rows, by increasing item id. */
    ghost function ListByConditionnement(conditionnementId: int): (rows: seq<Link>)
      reads this
      requires Valid()
      ensures forall l :: l in rows <==> l in links.Values && l.conditionnementId == conditionnementId
      ensures forall i, j :: 0 <= i < j < |rows| ==> rows[i].itemId < rows[j].itemId
    {
      var rows := Tables.RowsWithFirst(links, conditionnementId);
      var ids := Tables.SecondsOf(links, conditionnementId);
      assert forall l :: l in links.Values && l.conditionnementId == conditionnementId ==> l in rows by {
        forall l | l in links.Values && l.conditionnementId == conditionnementId ensures l in rows {
          var k :| k in links && links[k] == l;
          var n :| 0 <= n < |ids| && ids[n] == k.1;
          assert rows[n] == l;
        }
      }
      rows
    }

    /** `list_by_item`: that item's rows, by increasing conditionnement id. */
    ghost function ListByItem(itemId: int): (rows: seq<Link>)
      reads this
      requires Valid()
      ensures forall l :: l in rows <==> l in links.Values && l.itemId == itemId
      ensures forall i, j :: 0 <= i < j < |rows| ==> rows[i].conditionnementId < rows[j].conditionnementId
    {
      var rows := Tables.RowsWithSecond(links, itemId);
      var ids := Tables.FirstsOf(links, itemId);
      assert forall l :: l in links.Values && l.itemId == itemId ==> l in rows by {
        forall l | l in links.Values && l.itemId == itemId ensures l in rows {
          var k :| k in links && links[k] == l;
          var n :| 0 <= n < |ids| && ids[n] == k.0;
          assert rows[n] == l;
        }
      }
      rows
    }

    /**
     * `create_link`: the conditionnement, the item, the range and the key are
     * checked in that order; a refused payload leaves the table as it was.
     */
    method CreateLink(payload: Link) returns (r: Result<Link, Error>)
      requires Valid()
      modifies this
      ensures Valid()
      ensures conditionnements == old(conditionnements) && items == old(items)
      ensures r.Failure? ==> links == old(links)
      ensures payload.conditionnementId !in conditionnements ==> r == Failure(ConditionnementNotFound)
      ensures payload.conditionnementId in conditionnements && payload.itemId !in items ==> r == Failure(ItemNotFound)
      ensures (payload.conditionnementId in conditionnements && payload.itemId in items
               && payload.quantityMin > payload.quantityMax) ==> r == Failure(QuantityRange)
      ensures (payload.conditionnementId in conditionnements && payload.itemId in items
               && payload.quantityMin <= payload.quantityMax && Key(payload) in old(links)) ==> r == Failure(AlreadyExists)
      ensures r.Success? <==> && payload.conditionnementId in conditionnements && payload.itemId in items
                              && payload.quantityMin <= payload.quantityMax && Key(payload) !in old(links)
      ensures r.Success? ==> r.value == payload && links == old(links)[Key(payload) := payload]
    {
      if payload.conditionnementId !in conditionnements {
        return Failure(ConditionnementNotFound);
      }
      if payload.itemId !in items {
        return Failure(ItemNotFound);
      }
      var range := ValidateQtyRange(payload.quantityMin, payload.quantityMax);
      if range.Some? {
        return Failure(range.value);
      }
      var existing := GetLink(payload.conditionnementId, payload.itemId);
      if existing.Success? {
        return Failure(AlreadyExists);
      }
      links := links[Key(payload) := payload];
      r := Success(payload);
    }

    /**
     * `update_link`: the patched row is committed only when its range still
     * holds; the key and the other rows never change.
     */
    method UpdateLink(conditionnementId: int, itemId: int, patch: Patch) returns (r: Result<Link, Error>)
      requires Valid()
      modifies this`links
      ensures Valid()
      ensures (conditionnementId, itemId) !in old(links) ==> r == Failure(LinkNotFound) && links == old(links)
      ensures (conditionnementId, itemId) in old(links) ==>
                var merged := Merge(old(links)[(conditionnementId, itemId)], patch);
                if merged.quantityMin <= merged.quantityMax
                then r == Success(merged) && links == old(links)[(conditionnementId, itemId) := merged]
                else r == Failure(QuantityRange) && links == old(links)
    {
      var found := GetLink(conditionnementId, itemId);
      if found.Failure? {
        return Failure(found.error);
      }
      var link := Tables.ApplyPatch(found.value, Dump(patch), Set);
      PatchMerges(found.value, patch);
      var range := ValidateQtyRange(link.quantityMin, link.quantityMax);
      if range.Some? {
        return Failure(range.value);
      }
      links := links[(conditionnementId, itemId) := link];
      r := Success(link);
    }

    /** `delete_link`: removes exactly the addressed row. */
    method DeleteLink(conditionnementId: int, itemId: int) returns (r: Result<(), Error>)
      requires Valid()
      modifies this`links
      ensures Valid()
      ensures (conditionnementId, itemId) !in old(links) ==> r == Failure(LinkNotFound) && links == old(links)
      ensures (conditionnementId, itemId) in old(links) ==>
                r == Success(()) && links == old(links) - {(conditionnementId, itemId)}
    {
      var found := GetLink(conditionnementId, itemId);
      if found.Failure? {
        return Failure(found.error);
      }
      links := links - {(conditionnementId, itemId)};
      r := Success(());
    }
  }
}
