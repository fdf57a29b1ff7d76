/** The order as the order use cases hand it out
    (internal/usecase/order/get_or_create_draft.go: Variant, Addon, Item, Order
    and toOrderDTO). Timestamps are not modelled. */
module OrderDto {
  import opened OrderEntity

  datatype VariantDto = VariantDto(
    variantGroupId: string,
    variantGroup: string,
    variantOptionId: string,
    optionName: string,
    priceDelta: int)

  datatype AddonDto = AddonDto(
    addonGroupId: string,
    addonGroup: string,
    addonOptionId: string,
    optionName: string,
    qty: int,
    unitPrice: int,
    lineTotal: int)

  datatype ItemDto = ItemDto(
    id: string,
    itemId: string,
    name: string,
    qty: int,
    basePrice: int,
    lineTotal: int,
    variants: seq<VariantDto>,
    addons: seq<AddonDto>,
    note: string)

  datatype OrderDto = OrderDto(
    id: string,
    storeId: string,
    menuId: string,
    userId: string,
    status: OrderStatus,
    items: seq<ItemDto>,
    subtotal: int,
    fees: int,
    total: int)

  function ToVariantDto(v: OrderItemVariant): VariantDto
  {
    VariantDto(v.variantGroupId, v.variantGroup, v.variantOptionId, v.optionName, v.priceDelta)
  }

  function ToAddonDto(a: OrderItemAddon): AddonDto
  {
    AddonDto(a.addonGroupId, a.addonGroup, a.addonOptionId, a.optionName, a.qty, a.unitPrice, a.lineTotal)
  }

  function ToItemDto(it: OrderItem): (d: ItemDto)
    ensures |d.variants| == |it.variants| && |d.addons| == |it.addons|
  {
    ItemDto(it.id, it.itemId, it.name, it.qty, it.basePrice, it.lineTotal,
            seq(|it.variants|, j requires 0 <= j < |it.variants| => ToVariantDto(it.variants[j])),
            seq(|it.addons|, k requires 0 <= k < |it.addons| => ToAddonDto(it.addons[k])),
            it.note)
  }

  /** toOrderDTO: a field-by-field copy, line by line and in line order. */
  function ToOrderDto(o: Order): (d: OrderDto)
    ensures |d.items| == |o.items|
    ensures d.id == o.id && d.userId == o.userId && d.status == o.status
    ensures d.subtotal == o.subtotal && d.fees == o.fees && d.total == o.total
    ensures forall i :: 0 <= i < |o.items| ==>
              d.items[i].id == o.items[i].id && d.items[i].qty == o.items[i].qty && d.items[i].lineTotal == o.items[i].lineTotal
  {
    OrderDto(o.id, o.storeId, o.menuId, o.userId, o.status,
             seq(|o.items|, i requires 0 <= i < |o.items| => ToItemDto(o.items[i])),
             o.subtotal, o.fees, o.total)
  }

  // ---------- the inverse mapping, to show nothing is lost ----------

  function FromItemDto(d: ItemDto): OrderItem
  {
    OrderItem(d.id, d.itemId, d.name, d.qty, d.basePrice, d.lineTotal,
              seq(|d.variants|, j requires 0 <= j < |d.variants| =>
                var v := d.variants[j]; OrderItemVariant(v.variantGroupId, v.variantGroup, v.variantOptionId, v.optionName, v.priceDelta)),
              seq(|d.addons|, k requires 0 <= k < |d.addons| =>
                var a := d.addons[k]; OrderItemAddon(a.addonGroupId, a.addonGroup, a.addonOptionId, a.optionName, a.qty, a.unitPrice, a.lineTotal)),
              d.note)
  }

  function FromOrderDto(d: OrderDto): Order
  {
    Order(d.id, d.storeId, d.menuId, d.userId, d.status,
          seq(|d.items|, i requires 0 <= i < |d.items| => FromItemDto(d.items[i])),
          d.subtotal, d.fees, d.total)
  }

  lemma ItemRoundTrip(it: OrderItem)
    ensures FromItemDto(ToItemDto(it)) == it
  {
    var back := FromItemDto(ToItemDto(it));
    assert back.variants == it.variants;
    assert back.addons == it.addons;
  }

  /** toOrderDTO loses nothing the model keeps: reading the DTO back gives the
      order, so every id, quantity, snapshot, money field and the line order
      survive one-to-one. */
  lemma ToOrderDtoRoundTrip(o: Order)
    ensures FromOrderDto(ToOrderDto(o)) == o
  {
    var back := FromOrderDto(ToOrderDto(o));
    forall i | 0 <= i < |o.items|
      ensures back.items[i] == o.items[i]
    {
      ItemRoundTrip(o.items[i]);
    }
    assert back.items == o.items;
  }

  /** Two orders with the same DTO are the same order. */
  lemma ToOrderDtoInjective(a: Order, b: Order)
    requires ToOrderDto(a) == ToOrderDto(b)
    ensures a == b
  {
    ToOrderDtoRoundTrip(a);
    ToOrderDtoRoundTrip(b);
  }
}
