/**
 * src/services/stock_line_service.py: the `stock_lines` table, keyed by an
 * auto-incremented `id`. Every line belongs to an item and may name a stock.
 * The tables `items` and `stocks` appear only as the sets of their ids.
 * Dates are day numbers.
 */
module StockLines {
  import opened Wrappers
  import Tables

  /** A row of `stock_lines`. */
  datatype StockLine = StockLine(
    id: int,
    itemId: int,
    stockId: Option<int>,
    designation: string,
    dateStart: Option<int>,
    dateEnd: Option<int>,
    quantityStock: int)

  /** `StockLineCreate`. */
  datatype StockLineCreate = StockLineCreate(
    itemId: int,
    stockId: Option<int>,
    designation: string,
    dateStart: Option<int>,
    dateEnd: Option<int>,
    quantityStock: int)

  /**
   * `StockLineUpdate`: `None` is a field the client did not set. The nullable
   * columns take an optional value when set.
   */
  datatype Patch = Patch(
    itemId: Option<int>,
    stockId: Option<Option<int>>,
    designation: Option<string>,
    dateStart: Option<Option<int>>,
    dateEnd: Option<Option<int>>,
    quantityStock: Option<int>)

  /** One entry of `_dump(patch, exclude_unset=True)`. */
  datatype Field =
    | ItemId(item: int)
    | StockId(stock: Option<int>)
    | Designation(text: string)
    | DateStart(start: Option<int>)
    | DateEnd(end: Option<int>)
    | QuantityStock(quantity: int)

  datatype Error = StockLineNotFound | ItemNotFound | StockNotFound

  /** The `limit` of `list_stock_lines` when the caller gives none. */
  const DEFAULT_LIMIT := 50

  /** The set fields of a patch, in declaration order. */
  function Dump(p: Patch): seq<Field> {
    DumpLink(p) + DumpContent(p)
  }

  /** The set fields among `item_id`, `stock_id` and `designation`. */
  function DumpLink(p: Patch): seq<Field> {
    (if p.itemId.Some? then [ItemId(p.itemId.value)] else [])
    + (if p.stockId.Some? then [StockId(p.stockId.value)] else [])
    + (if p.designation.Some? then [Designation(p.designation.value)] else [])
  }

  /** The set fields among `date_start`, `date_end` and `quantity_stock`. */
  function DumpContent(p: Patch): seq<Field> {
    (if p.dateStart.Some? then [DateStart(p.dateStart.value)] else [])
    + (if p.dateEnd.Some? then [DateEnd(p.dateEnd.value)] else [])
    + (if p.quantityStock.Some? then [QuantityStock(p.quantityStock.value)] else [])
  }

  /** `setattr(stock_line, key, value)`. */
  function Set(s: StockLine, f: Field): StockLine {
    match f
    case ItemId(v) => s.(itemId := v)
    case StockId(v) => s.(stockId := v)
    case Designation(v) => s.(designation := v)
    case DateStart(v) => s.(dateStart := v)
    case DateEnd(v) => s.(dateEnd := v)
    case QuantityStock(v) => s.(quantityStock := v)
  }

  /** The row a patch describes: each set field replaced, every other field kept. */
  function Merge(s: StockLine, p: Patch): StockLine {
    StockLine(
      s.id,
      p.itemId.GetOr(s.itemId),
      p.stockId.GetOr(s.stockId),
      p.designation.GetOr(s.designation),
      p.dateStart.GetOr(s.dateStart),
      p.dateEnd.GetOr(s.dateEnd),
      p.quantityStock.GetOr(s.quantityStock))
  }

  lemma {:induction false} LinkFieldsApplied(s: StockLine, p: Patch)
    ensures Tables.Applied(s, DumpLink(p), Set) ==
              s.(itemId := p.itemId.GetOr(s.itemId), stockId := p.stockId.GetOr(s.stockId),
                 designation := p.designation.GetOr(s.designation))
  {
    var d1 := if p.itemId.Some? then [ItemId(p.itemId.value)] else [];
    var d2 := if p.stockId.Some? then [StockId(p.stockId.value)] else [];
    var d3 := if p.designation.Some? then [Designation(p.designation.value)] else [];
    var r1 := if p.itemId.Some? then s.(itemId := p.itemId.value) else s;
    var r2 := if p.stockId.Some? then r1.(stockId := p.stockId.value) else r1;
    var e2 := d1 + d2;
    assert Tables.Applied(s, d1, Set) == r1 by {
      assert [] + d1 == d1;
      Tables.AppliedStep(s, [], d1, Set);
    }
    assert Tables.Applied(s, e2, Set) == r2 by { Tables.AppliedStep(s, d1, d2, Set); }
    Tables.AppliedStep(s, e2, d3, Set);
  }

  lemma {:induction false} ContentFieldsApplied(s: StockLine, p: Patch)
    ensures Tables.Applied(s, DumpContent(p), Set) ==
              s.(dateStart := p.dateStart.GetOr(s.dateStart), dateEnd := p.dateEnd.GetOr(s.dateEnd),
                 quantityStock := p.quantityStock.GetOr(s.quantityStock))
  {
    var d1 := if p.dateStart.Some? then [DateStart(p.dateStart.value)] else [];
    var d2 := if p.dateEnd.Some? then [DateEnd(p.dateEnd.value)] else [];
    var d3 := if p.quantityStock.Some? then [QuantityStock(p.quantityStock.value)] else [];
    var r1 := if p.dateStart.Some? then s.(dateStart := p.dateStart.value) else s;
    var r2 := if p.dateEnd.Some? then r1.(dateEnd := p.dateEnd.value) else r1;
    var e2 := d1 + d2;
    assert Tables.Applied(s, d1, Set) == r1 by {
      assert [] + d1 == d1;
      Tables.AppliedStep(s, [], d1, Set);
    }
    assert Tables.Applied(s, e2, Set) == r2 by { Tables.AppliedStep(s, d1, d2, Set); }
    Tables.AppliedStep(s, e2, d3, Set);
  }

  /** The `setattr` loop produces the merged row, so the id never changes. */
  lemma {:induction false} PatchMerges(s: StockLine, p: Patch)
    ensures Tables.Applied(s, Dump(p), Set) == Merge(s, p)
    ensures Merge(s, p).id == s.id
  {
    Tables.AppliedConcat(s, DumpLink(p), DumpContent(p), Set);
    LinkFieldsApplied(s, p);
    ContentFieldsApplied(Tables.Applied(s, DumpLink(p), Set), p);
  }

  class StockLineService {
    var lines: map<int, StockLine>
    var items: set<int>
    var stocks: set<int>
    /** The next value of the `id` auto-increment. */
    var nextId: int

    /** Each row sits under its own id, below the counter, and references existing rows. */
    ghost predicate Valid()
      reads this
    {
      && 0 < nextId
      && forall id :: id in lines ==>
           && lines[id].id == id && 0 < id < nextId
           && lines[id].itemId in items
           && (lines[id].stockId.Some? ==> lines[id].stockId.value in stocks)
    }

    constructor (items: set<int>, stocks: set<int>)
      ensures Valid()
      ensures lines == map[] && this.items == items && this.stocks == stocks
    {
      lines := map[];
      this.items := items;
      this.stocks := stocks;
      nextId := 1;
    }

    /** `get_stock_line`. */
    function GetStockLine(stockLineId: int): (r: Result<StockLine, Error>)
      reads this
      ensures r.Failure? <==> stockLineId !in lines
      ensures r.Failure? ==> r.error == StockLineNotFound
      ensures r.Success? && Valid() ==> r.value.id == stockLineId && r.value.itemId in items
    {
      if stockLineId in lines then Success(lines[stockLineId]) else Failure(StockLineNotFound)
    }

    /**
     * `list_stock_lines`: the rows by increasing id, `skip` rows skipped and at
     * most `limit` kept. The row at position `i` has exactly `skip + i` rows
     * with a smaller id.
     */
    ghost function ListStockLines(skip: nat, limit: nat): (rows: seq<StockLine>)
      reads this
      requires Valid()
      ensures skip >= |lines| ==> rows == []
      ensures skip < |lines| ==> |rows| == Tables.MinNat(limit, |lines| - skip)
      ensures forall i, j :: 0 <= i < j < |rows| ==> rows[i].id < rows[j].id
      ensures forall i :: 0 <= i < |rows| ==>
                rows[i].id in lines && lines[rows[i].id] == rows[i]
                && |Tables.Below(lines.Keys, rows[i].id)| == skip + i
    {
      var table := lines;
      var ids := Tables.KeyPage(table, skip, limit);
      seq(|ids|, i requires 0 <= i < |ids| => table[ids[i]])
    }

    /** `get_stock_lines_by_item`: that item's rows, by increasing id. */
    ghost function GetStockLinesByItem(itemId: int): (rows: seq<StockLine>)
      reads this
      requires Valid()
      ensures forall s :: s in rows <==> s in lines.Values && s.itemId == itemId
      ensures forall i, j :: 0 <= i < j < |rows| ==> rows[i].id < rows[j].id
    {
      var rows := Tables.RowsWhere(lines, (s: StockLine) => s.itemId == itemId);
      var ids := Tables.Ascending(Tables.Matching(lines, (s: StockLine) => s.itemId == itemId));
      assert forall n :: 0 <= n < |rows| ==> rows[n].id == ids[n];
      rows
    }

    /**
     * `create_stock_line`: the item must exist, and the stock too when one is
     * named; the new row takes the next id.
     */
    method CreateStockLine(payload: StockLineCreate) returns (r: Result<StockLine, Error>)
      requires Valid()
      modifies this`lines, this`nextId
      ensures Valid()
      ensures r.Failure? ==> lines == old(lines) && nextId == old(nextId)
      ensures payload.itemId !in items ==> r == Failure(ItemNotFound)
      ensures (payload.itemId in items && payload.stockId.Some? && payload.stockId.value !in stocks)
              ==> r == Failure(StockNotFound)
      ensures r.Success? <==> payload.itemId in items && (payload.stockId.Some? ==> payload.stockId.value in stocks)
      ensures r.Success? ==>
                && old(nextId) !in old(lines)
                && r.value == StockLine(old(nextId), payload.itemId, payload.stockId, payload.designation,
                                        payload.dateStart, payload.dateEnd, payload.quantityStock)
                && lines == old(lines)[old(nextId) := r.value]
    {
      if payload.itemId !in items {
        return Failure(ItemNotFound);
      }
      if payload.stockId.Some? {
        if payload.stockId.value !in stocks {
          return Failure(StockNotFound);
        }
      }
      var line := StockLine(nextId, payload.itemId, payload.stockId, payload.designation,
                            payload.dateStart, payload.dateEnd, payload.quantityStock);
      lines := lines[nextId := line];
      nextId := nextId + 1;
      r := Success(line);
    }

    /**
     * `update_stock_line`: a patched item must exist, and so must a patched
     * stock other than `None`; then only the patched fields change.
     */
    method UpdateStockLine(stockLineId: int, patch: Patch) returns (r: Result<StockLine, Error>)
      requires Valid()
      modifies this`lines
      ensures Valid()
      ensures r.Failure? ==> lines == old(lines)
      ensures stockLineId !in old(lines) ==> r == Failure(StockLineNotFound)
      ensures (stockLineId in old(lines) && patch.itemId.Some? && patch.itemId.value !in items)
              ==> r == Failure(ItemNotFound)
      ensures (stockLineId in old(lines) && (patch.itemId.Some? ==> patch.itemId.value in items)
               && patch.stockId.Some? && patch.stockId.value.Some? && patch.stockId.value.value !in stocks)
              ==> r == Failure(StockNotFound)
      ensures r.Success? <==> && stockLineId in old(lines)
                              && (patch.itemId.Some? ==> patch.itemId.value in items)
                              && (patch.stockId.Some? && patch.stockId.value.Some? ==> patch.stockId.value.value in stocks)
      ensures r.Success? ==>
                var merged := Merge(old(lines)[stockLineId], patch);
                r.value == merged && lines == old(lines)[stockLineId := merged]
    {
      var found := GetStockLine(stockLineId);
      if found.Failure? {
        return Failure(found.error);
      }
      if patch.itemId.Some? {
        if patch.itemId.value !in items {
          return Failure(ItemNotFound);
        }
      }
      if patch.stockId.Some? {
        if patch.stockId.value.Some? && patch.stockId.value.value !in stocks {
          return Failure(StockNotFound);
        }
      }
      var line := Tables.ApplyPatch(found.value, Dump(patch), Set);
      PatchMerges(found.value, patch);
      lines := lines[stockLineId := line];
      r := Success(line);
    }

    /** `delete_stock_line`: removes exactly the addressed row. */
    method DeleteStockLine(stockLineId: int) returns (r: Result<(), Error>)
      requires Valid()
      modifies this`lines
      ensures Valid()
      ensures stockLineId !in old(lines) ==> r == Failure(StockLineNotFound) && lines == old(lines)
      ensures stockLineId in old(lines) ==> r == Success(()) && lines == old(lines) - {stockLineId}
    {
      var found := GetStockLine(stockLineId);
      if found.Failure? {
        return Failure(found.error);
      }
      lines := lines - {stockLineId};
      r := Success(());
    }
  }
}
