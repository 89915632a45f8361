/**
 What a checkout accepts and what it charges: the length check on the variants found, the
 quantity map, the subtotal over rows, and the total with shipping.
 */
module CheckoutTotals {
  import opened Common

  const SHIPPING_FEE := 20000

  datatype BookFormat = HARDCOVER | PAPERBACK | EBOOK | AUDIOBOOK

  /** Prices are whole VND. */
  datatype Variant = Variant(id: nat, isbn: string, format: BookFormat, price: nat)

  type Catalog = map<int, Variant>

  ghost predicate KeyedById(catalog: Catalog) {
    forall id :: id in catalog ==> catalog[id].id == id
  }

  /** `rows` answers `WHERE id IN (...)` for the items' ids, in any order. */
  ghost predicate Answers(catalog: Catalog, items: seq<Item>, rows: seq<Variant>) {
    && (forall i, j :: 0 <= i < j < |rows| ==> rows[i].id != rows[j].id)
    && (forall i :: 0 <= i < |rows| ==> rows[i].id in catalog && rows[i] == catalog[rows[i].id])
    && (forall id :: id in RowIds(rows) <==> id in ItemIds(items) && id in catalog)
  }

  function ItemIds(items: seq<Item>): set<int> {
    set i | 0 <= i < |items| :: items[i].variantId
  }

  function RowIds(rows: seq<Variant>): set<int> {
    set i | 0 <= i < |rows| :: rows[i].id
  }

  lemma ItemIdsSnoc(items: seq<Item>)
    requires items != []
    ensures ItemIds(items) == ItemIds(items[..|items| - 1]) + {items[|items| - 1].variantId}
  {
    var front := items[..|items| - 1];
    forall id ensures id in ItemIds(items) <==> id in ItemIds(front) || id == items[|items| - 1].variantId {
      if i :| 0 <= i < |items| - 1 && items[i].variantId == id {
        assert front[i].variantId == id;
      }
    }
  }

  lemma {:induction false} ItemIdsSize(items: seq<Item>)
    ensures |ItemIds(items)| <= |items|
    ensures |ItemIds(items)| == |items| <==> DistinctVariants(items)
  {
    if items == [] {
      assert ItemIds(items) == {};
    } else {
      var n := |items| - 1;
      var front := items[..n];
      ItemIdsSize(front);
      ItemIdsSnoc(items);
      if items[n].variantId in ItemIds(front) {
        var i :| 0 <= i < |front| && front[i].variantId == items[n].variantId;
        assert items[i].variantId == items[n].variantId;
      } else if DistinctVariants(front) {
        forall i | 0 <= i < n ensures items[i].variantId != items[n].variantId {
          assert front[i].variantId in ItemIds(front);
        }
      }
    }
  }

  lemma {:induction false} RowIdsSize(rows: seq<Variant>)
    requires forall i, j :: 0 <= i < j < |rows| ==> rows[i].id != rows[j].id
    ensures |RowIds(rows)| == |rows|
  {
    if rows == [] {
      assert RowIds(rows) == {};
    } else {
      var n := |rows| - 1;
      var front := rows[..n];
      RowIdsSize(front);
      assert RowIds(rows) == RowIds(front) + {rows[n].id};
      assert rows[n].id !in RowIds(front);
    }
  }

  /**
   Comparing lengths is enough: as many rows as items come back if and only if the items
   name pairwise different variants that all exist.
   */
  lemma LengthCheckIsExact(catalog: Catalog, items: seq<Item>, rows: seq<Variant>)
    requires Answers(catalog, items, rows)
    ensures |rows| == |items| <==>
      DistinctVariants(items) && forall i :: 0 <= i < |items| ==> items[i].variantId in catalog
  {
    ItemIdsSize(items);
    RowIdsSize(rows);
    var asked, found := ItemIds(items), RowIds(rows);
    assert found <= asked;
    assert asked == found + (asked - found);
    if |rows| == |items| {
      assert asked - found == {};
      forall i | 0 <= i < |items| ensures items[i].variantId in catalog {
        assert items[i].variantId in asked;
      }
    }
    if DistinctVariants(items) && forall i :: 0 <= i < |items| ==> items[i].variantId in catalog {
      forall id | id in asked ensures id in found {
        var i :| 0 <= i < |items| && items[i].variantId == id;
      }
      assert asked == found;
    }
  }

  // ---- the sums ------------------------------------------------------------------

  /** `price * mapVariantIds[id]` for a row. */
  function RowTotal(quantities: map<int, int>): Variant -> int {
    (v: Variant) => v.price * Get(quantities, v.id)
  }

  /** The charge for an item, by the catalog. */
  function ItemTotal(catalog: Catalog): Item -> int {
    (i: Item) => if i.variantId in catalog then catalog[i.variantId].price * i.quantity else 0
  }

  /** One more item adds its price times its quantity. */
  lemma SubtotalAddsPriceTimesQuantity(catalog: Catalog, items: seq<Item>, item: Item)
    requires item.variantId in catalog
    ensures Sum(ItemTotal(catalog), items + [item])
         == Sum(ItemTotal(catalog), items) + catalog[item.variantId].price * item.quantity
    ensures Sum(ItemTotal(catalog), []) == 0
  {
    SumAppend(ItemTotal(catalog), items, item);
  }

  predicate HasRow(rows: seq<Variant>, id: int) {
    exists k :: 0 <= k < |rows| && rows[k].id == id
  }

  ghost predicate Covers(rows: seq<Variant>, items: seq<Item>) {
    forall i :: 0 <= i < |items| ==> HasRow(rows, items[i].variantId)
  }

  lemma CoversRest(rows: seq<Variant>, items: seq<Item>, k: nat)
    requires Covers(rows, items) && DistinctVariants(items) && items != []
    requires k < |rows| && rows[k].id == items[0].variantId
    ensures Covers(rows[..k] + rows[k + 1..], items[1..])
  {
    var rest := rows[..k] + rows[k + 1..];
    forall i | 0 <= i < |items[1..]| ensures HasRow(rest, items[1..][i].variantId) {
      assert HasRow(rows, items[i + 1].variantId);
      var j :| 0 <= j < |rows| && rows[j].id == items[i + 1].variantId;
      assert rest[if j < k then j else j - 1] == rows[j];
    }
  }

  lemma {:induction false} RowsSumToItems(catalog: Catalog, items: seq<Item>, rows: seq<Variant>,
          quantities: map<int, int>)
    requires DistinctVariants(items) && |rows| == |items|
    requires forall i, j :: 0 <= i < j < |rows| ==> rows[i].id != rows[j].id
    requires forall i :: 0 <= i < |rows| ==> rows[i].id in catalog && rows[i] == catalog[rows[i].id]
    requires Covers(rows, items)
    requires forall i :: 0 <= i < |items| ==> Get(quantities, items[i].variantId) == items[i].quantity
    ensures Sum(RowTotal(quantities), rows) == Sum(ItemTotal(catalog), items)
  {
    if items != [] {
      assert HasRow(rows, items[0].variantId);
      var k :| 0 <= k < |rows| && rows[k].id == items[0].variantId;
      SumRemove(RowTotal(quantities), rows, k);
      var rest := rows[..k] + rows[k + 1..];
      CoversRest(rows, items, k);
      RowsSumToItems(catalog, items[1..], rest, quantities);
    }
  }

  datatype Quote = Quote(quantities: map<int, int>, subtotal: int, total: int)

  /**
   The accepting part of `createCheckout`; `None` is the refusal because a product is
   gone.  The subtotal, computed from the rows and the quantity map, is the sum over the
   requested items at catalog prices.
   */
  method QuoteCheckout(ghost catalog: Catalog, items: seq<Item>, rows: seq<Variant>) returns (r: Option<Quote>)
    requires KeyedById(catalog) && Answers(catalog, items, rows)
    ensures r.Some? <==>
      DistinctVariants(items) && forall i :: 0 <= i < |items| ==> items[i].variantId in catalog
    ensures r.Some? ==> r.value.subtotal == Sum(ItemTotal(catalog), items)
    ensures r.Some? ==> r.value.subtotal == Sum(RowTotal(r.value.quantities), rows)
    ensures r.Some? ==> r.value.total == r.value.subtotal + 20000
    ensures r.Some? ==> forall v :: Get(r.value.quantities, v) == QuantityOf(items, v)
  {
    var quantities: map<int, int> := map[];
    var i := 0;
    while i < |items|
      invariant 0 <= i <= |items|
      invariant forall j :: 0 <= j < i && DistinctVariants(items) ==>
        Get(quantities, items[j].variantId) == items[j].quantity
      invariant forall v :: v in quantities ==> exists j :: 0 <= j < i && items[j].variantId == v
    {
      quantities := quantities[items[i].variantId := items[i].quantity];
      i := i + 1;
    }
    LengthCheckIsExact(catalog, items, rows);
    if |rows| != |items| { return None; }
    var subtotal := 0;
    i := 0;
    while i < |rows|
      invariant 0 <= i <= |rows| && subtotal == Sum(RowTotal(quantities), rows[..i])
    {
      assert rows[..i + 1] == rows[..i] + [rows[i]];
      SumAppend(RowTotal(quantities), rows[..i], rows[i]);
      subtotal := subtotal + rows[i].price * (if rows[i].id in quantities then quantities[rows[i].id] else 0);
      i := i + 1;
    }
    assert rows[..i] == rows;
    forall k | 0 <= k < |items| ensures HasRow(rows, items[k].variantId) {
      assert items[k].variantId in ItemIds(items);
      assert items[k].variantId in RowIds(rows);
    }
    RowsSumToItems(catalog, items, rows, quantities);
    forall v ensures Get(quantities, v) == QuantityOf(items, v) {
      if j :| 0 <= j < |items| && items[j].variantId == v {
        QuantityAt(items, j);
      } else {
        QuantityAbsent(items, v);
      }
    }
    return Some(Quote(quantities, subtotal, subtotal + SHIPPING_FEE));
  }
}
