/** The order aggregate and its pricing (internal/domain/entity/order.go).
    Money is a count of cents, kept as an unbounded int. */
module OrderEntity {

  /** OrderStatusEmpty stands for Go's zero value "" of the string-typed status. */
  datatype OrderStatus = OrderStatusEmpty | OrderCreated | OrderPlaced | OrderPaid | OrderCanceled

  function StatusText(s: OrderStatus): string
  {
    match s
    case OrderStatusEmpty => ""
    case OrderCreated => "CREATED"
    case OrderPlaced => "PLACED"
    case OrderPaid => "PAID"
    case OrderCanceled => "CANCELED"
  }

  /** The order state machine the use cases follow: placing takes CREATED to
      PLACED, a confirmed payment takes PLACED to PAID. */
  predicate OrderStep(from: OrderStatus, to: OrderStatus)
  {
    from == to || (from == OrderCreated && to == OrderPlaced) || (from == OrderPlaced && to == OrderPaid)
  }

  /** Snapshot of a chosen variant option. */
  datatype OrderItemVariant = OrderItemVariant(
    variantGroupId: string,
    variantGroup: string,
    variantOptionId: string,
    optionName: string,
    priceDelta: int)

  /** Snapshot of a chosen addon option with its quantity. */
  datatype OrderItemAddon = OrderItemAddon(
    addonGroupId: string,
    addonGroup: string,
    addonOptionId: string,
    optionName: string,
    qty: int,
    unitPrice: int,
    lineTotal: int)

  /** A cart line. */
  datatype OrderItem = OrderItem(
    id: string,
    itemId: string,
    name: string,
    qty: int,
    basePrice: int,
    lineTotal: int,
    variants: seq<OrderItemVariant>,
    addons: seq<OrderItemAddon>,
    note: string)

  datatype Order = Order(
    id: string,
    storeId: string,
    menuId: string,
    userId: string,
    status: OrderStatus,
    items: seq<OrderItem>,
    subtotal: int,
    fees: int,
    total: int)

  // ---------- reference pricing, independent of the stored line totals ----------

  /** Σ unitPrice × qty over the addons. */
  function AddonCharge(addons: seq<OrderItemAddon>): int
  {
    if addons == [] then 0
    else AddonCharge(addons[..|addons| - 1]) + addons[|addons| - 1].unitPrice * addons[|addons| - 1].qty
  }

  /** Σ priceDelta over the variants (deltas may be negative). */
  function VariantDelta(variants: seq<OrderItemVariant>): int
  {
    if variants == [] then 0
    else VariantDelta(variants[..|variants| - 1]) + variants[|variants| - 1].priceDelta
  }

  /** Price of one unit of a line: base + addons per unit + variant deltas. */
  function UnitPrice(it: OrderItem): int
  {
    it.basePrice + AddonCharge(it.addons) + VariantDelta(it.variants)
  }

  /** Σ UnitPrice × qty over the lines. */
  function ExpectedSubtotal(items: seq<OrderItem>): int
  {
    if items == [] then 0
    else ExpectedSubtotal(items[..|items| - 1]) + UnitPrice(items[|items| - 1]) * items[|items| - 1].qty
  }

  // ---------- what RecalculateTotals writes ----------

  /** Σ of the stored addon line totals. */
  function AddonLineSum(addons: seq<OrderItemAddon>): int
  {
    if addons == [] then 0
    else AddonLineSum(addons[..|addons| - 1]) + addons[|addons| - 1].lineTotal
  }

  /** Σ of the stored item line totals. */
  function ItemLineSum(items: seq<OrderItem>): int
  {
    if items == [] then 0
    else ItemLineSum(items[..|items| - 1]) + items[|items| - 1].lineTotal
  }

  function PricedAddon(a: OrderItemAddon): OrderItemAddon
  {
    a.(lineTotal := a.unitPrice * a.qty)
  }

  function PricedAddons(addons: seq<OrderItemAddon>): (r: seq<OrderItemAddon>)
    ensures |r| == |addons|
  {
    seq(|addons|, j requires 0 <= j < |addons| => PricedAddon(addons[j]))
  }

  function PricedItem(it: OrderItem): OrderItem
  {
    var ads := PricedAddons(it.addons);
    it.(addons := ads, lineTotal := (it.basePrice + AddonLineSum(ads) + VariantDelta(it.variants)) * it.qty)
  }

  function PricedItems(items: seq<OrderItem>): (r: seq<OrderItem>)
    ensures |r| == |items|
  {
    seq(|items|, i requires 0 <= i < |items| => PricedItem(items[i]))
  }

  /** The order as RecalculateTotals leaves it. */
  function Recalculated(o: Order): Order
  {
    var items := PricedItems(o.items);
    o.(items := items, subtotal := ItemLineSum(items), total := ItemLineSum(items) + o.fees)
  }

  /** Everything but the derived money fields agrees. */
  predicate SameExceptTotals(a: Order, b: Order)
  {
    && a.id == b.id && a.storeId == b.storeId && a.menuId == b.menuId && a.userId == b.userId
    && a.status == b.status && a.fees == b.fees && |a.items| == |b.items|
    && forall i :: 0 <= i < |a.items| ==> SameLineExceptTotals(a.items[i], b.items[i])
  }

  predicate SameLineExceptTotals(x: OrderItem, y: OrderItem)
  {
    && x.id == y.id && x.itemId == y.itemId && x.name == y.name && x.qty == y.qty
    && x.basePrice == y.basePrice && x.variants == y.variants && x.note == y.note
    && |x.addons| == |y.addons|
    && forall j :: 0 <= j < |x.addons| ==> x.addons[j] == y.addons[j].(lineTotal := x.addons[j].lineTotal)
  }

  // ---------- the imperative recalculation ----------

  /** The inner addon loop of RecalculateTotals: prices each addon line and
      accumulates the per-unit addon charge. */
  method PriceAddonLines(addons: seq<OrderItemAddon>) returns (r: seq<OrderItemAddon>, perUnit: int)
    ensures r == PricedAddons(addons)
    ensures perUnit == AddonLineSum(r)
  {
    r := addons;
    perUnit := 0;
    var j := 0;
    while j < |r|
      invariant 0 <= j <= |r| == |addons|
      invariant forall n :: 0 <= n < j ==> r[n] == PricedAddon(addons[n])
      invariant forall n :: j <= n < |r| ==> r[n] == addons[n]
      invariant perUnit == AddonLineSum(r[..j])
    {
      var ad := r[j].(lineTotal := r[j].unitPrice * r[j].qty);
      r := r[j := ad];
      assert r[..j + 1][..j] == r[..j];
      perUnit := perUnit + ad.lineTotal;
      j := j + 1;
    }
    assert r[..j] == r;
  }

  /** The variant loop of RecalculateTotals. */
  method SumVariantDeltas(variants: seq<OrderItemVariant>) returns (delta: int)
    ensures delta == VariantDelta(variants)
  {
    delta := 0;
    var k := 0;
    while k < |variants|
      invariant 0 <= k <= |variants|
      invariant delta == VariantDelta(variants[..k])
    {
      assert variants[..k + 1][..k] == variants[..k];
      delta := delta + variants[k].priceDelta;
      k := k + 1;
    }
    assert variants[..k] == variants;
  }

  /** (*Order).RecalculateTotals: fills in every addon line total, every item
      line total, the subtotal and the total, in place. */
  method RecalculateTotals(o: Order) returns (r: Order)
    ensures r == Recalculated(o)
  {
    var items := o.items;
    var subtotal := 0;
    var i := 0;
    while i < |items|
      invariant 0 <= i <= |items| == |o.items|
      invariant forall m :: 0 <= m < i ==> items[m] == PricedItem(o.items[m])
      invariant forall m :: i <= m < |items| ==> items[m] == o.items[m]
      invariant subtotal == ItemLineSum(items[..i])
    {
      var it := items[i];
      var addons, addonsPerUnit := PriceAddonLines(it.addons);
      var variantDelta := SumVariantDeltas(it.variants);
      it := it.(addons := addons, lineTotal := (it.basePrice + addonsPerUnit + variantDelta) * it.qty);
      items := items[i := it];
      assert items[..i + 1][..i] == items[..i];
      subtotal := subtotal + it.lineTotal;
      i := i + 1;
    }
    assert items == PricedItems(o.items);
    assert items[..i] == items;
    r := o.(items := items, subtotal := subtotal, total := subtotal + o.fees);
  }

  // ---------- what the recalculation guarantees ----------

  lemma {:induction false} PricedAddonsCharge(addons: seq<OrderItemAddon>)
    ensures AddonLineSum(PricedAddons(addons)) == AddonCharge(addons)
    decreases |addons|
  {
    if addons != [] {
      var n := |addons| - 1;
      PricedAddonsCharge(addons[..n]);
      assert PricedAddons(addons)[..n] == PricedAddons(addons[..n]);
    }
  }

  lemma {:induction false} PricedItemsSubtotal(items: seq<OrderItem>)
    ensures ItemLineSum(PricedItems(items)) == ExpectedSubtotal(items)
    decreases |items|
  {
    if items != [] {
      var n := |items| - 1;
      PricedItemsSubtotal(items[..n]);
      assert PricedItems(items)[..n] == PricedItems(items[..n]);
      PricedAddonsCharge(items[n].addons);
    }
  }

  /** After recalculation every addon line total is unitPrice × qty, every
      item line total is (base + Σ addon unitPrice × qty + Σ variant delta) ×
      qty, the subtotal is the sum of the lines and the total adds the fees. */
  lemma RecalculatedTotalsCorrect(o: Order)
    ensures var r := Recalculated(o);
      && |r.items| == |o.items|
      && (forall i, j :: 0 <= i < |o.items| && 0 <= j < |o.items[i].addons| ==>
            j < |r.items[i].addons| && r.items[i].addons[j].lineTotal == o.items[i].addons[j].unitPrice * o.items[i].addons[j].qty)
      && (forall i :: 0 <= i < |o.items| ==> r.items[i].lineTotal == UnitPrice(o.items[i]) * o.items[i].qty)
      && r.subtotal == ExpectedSubtotal(o.items)
      && r.total == r.subtotal + o.fees
  {
    forall i | 0 <= i < |o.items|
      ensures Recalculated(o).items[i].lineTotal == UnitPrice(o.items[i]) * o.items[i].qty
    {
      PricedAddonsCharge(o.items[i].addons);
    }
    PricedItemsSubtotal(o.items);
  }

  /** Only the derived money fields change: ids, quantities, snapshots, notes,
      status, fees and the order of the lines stay as they were. */
  lemma RecalculatedKeepsEverythingElse(o: Order)
    ensures SameExceptTotals(o, Recalculated(o))
  {
  }

  /** An order with no lines is priced at its fees alone. */
  lemma RecalculatedEmpty(o: Order)
    requires o.items == []
    ensures Recalculated(o).subtotal == 0 && Recalculated(o).total == o.fees
  {
  }

  lemma PricedAddonsIdempotent(addons: seq<OrderItemAddon>)
    ensures PricedAddons(PricedAddons(addons)) == PricedAddons(addons)
  {
  }

  /** Recalculating twice gives the same order as recalculating once. */
  lemma RecalculateIdempotent(o: Order)
    ensures Recalculated(Recalculated(o)) == Recalculated(o)
  {
    var p := PricedItems(o.items);
    forall i | 0 <= i < |p|
      ensures PricedItem(p[i]) == p[i]
    {
      PricedAddonsIdempotent(o.items[i].addons);
    }
    assert PricedItems(p) == p;
  }

  /** The worked example: base 1000, one addon 200 × 2, one variant -100,
      quantity 3, gives a line total, subtotal and total of 3900. */
  lemma TotalsExample(fees: int)
    ensures var ad := OrderItemAddon("g", "G", "a", "A", 2, 200, 0);
      var v := OrderItemVariant("vg", "VG", "v", "V", -100);
      var it := OrderItem("l", "i", "I", 3, 1000, 0, [v], [ad], "");
      var r := Recalculated(Order("o", "s", "", "u", OrderCreated, [it], 0, fees, 0));
      r.items[0].lineTotal == 3900 && r.subtotal == 3900 && r.total == 3900 + fees
  {
    var ad := OrderItemAddon("g", "G", "a", "A", 2, 200, 0);
    var v := OrderItemVariant("vg", "VG", "v", "V", -100);
    var it := OrderItem("l", "i", "I", 3, 1000, 0, [v], [ad], "");
    var o := Order("o", "s", "", "u", OrderCreated, [it], 0, fees, 0);
    RecalculatedTotalsCorrect(o);
    assert AddonCharge([ad]) == 400;
    assert VariantDelta([v]) == -100;
    assert ExpectedSubtotal([it]) == 3900;
  }
}
