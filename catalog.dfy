/** The catalog entities an order line is built from (internal/domain/entity)
    and the read-only view of the catalog that AddItem consults. Every lookup
    has the semantics of the in-memory repositories: an empty id is
    `invalid_argument` "missing id", an unknown id is `not_found`, and a
    listing returns the records of an index list in insertion order. */
module Catalog {
  import opened Errx
  import opened Repository

  datatype CategoryItem = CategoryItem(
    id: string,
    categoryId: string,
    name: string,
    description: string,
    basePrice: int,
    imageUrl: string,
    isActive: bool)

  datatype AddonOption = AddonOption(
    id: string,
    addonGroupId: string,
    name: string,
    price: int,
    order: int,
    isActive: bool)

  /** ItemAddonGroup and ItemVariantGroup have the same fields; `itemId` is the
      category item the group belongs to. */
  datatype ItemGroup = ItemGroup(
    id: string,
    itemId: string,
    name: string,
    required: bool,
    minSelect: int,
    maxSelect: int,
    order: int,
    isActive: bool)

  datatype VariantOption = VariantOption(
    id: string,
    variantGroupId: string,
    name: string,
    priceDelta: int,
    isDefault: bool,
    order: int,
    isActive: bool)

  /** The min/max sanity rule of the group repositories: both non-negative, and
      min ≤ max unless max is 0, which means "no maximum". */
  predicate SelectBoundsOk(g: ItemGroup)
  {
    !(g.minSelect < 0 || g.maxSelect < 0 || (g.maxSelect > 0 && g.minSelect > g.maxSelect))
  }

  // ---------- the catalog as AddItem reads it ----------

  /** The catalog behind the menu read facade, which delegates every call to a
      catalog repository. */
  datatype Menu = Menu(
    items: map<string, CategoryItem>,
    addonGroups: map<string, ItemGroup>,
    addonGroupIdsByItem: map<string, seq<string>>,
    addonOptions: map<string, AddonOption>,
    variantGroups: map<string, ItemGroup>,
    variantGroupIdsByItem: map<string, seq<string>>,
    variantOptions: map<string, VariantOption>)

  function GetCategoryItemById(m: Menu, id: string): Result<CategoryItem>
  {
    GetById(m.items, id, "item not found")
  }

  function GetAddonOptionById(m: Menu, id: string): Result<AddonOption>
  {
    GetById(m.addonOptions, id, "addon option not found")
  }

  function GetVariantOptionById(m: Menu, id: string): Result<VariantOption>
  {
    GetById(m.variantOptions, id, "variant option not found")
  }

  /** ListByCategoryItemID of a group repository: an empty item id is
      `invalid_argument`, otherwise the item's groups in insertion order. */
  function ListGroups(byId: map<string, ItemGroup>, index: map<string, seq<string>>, itemId: string): (r: Result<seq<ItemGroup>>)
    ensures r.Err? <==> itemId == ""
  {
    if itemId == "" then Err(New(CodeInvalid, "missing category item ID"))
    else Ok(Collect(IdsUnder(index, itemId), byId))
  }

  function ListItemAddonGroupsByItemId(m: Menu, itemId: string): Result<seq<ItemGroup>>
  {
    ListGroups(m.addonGroups, m.addonGroupIdsByItem, itemId)
  }

  function ListItemVariantGroupsByItemId(m: Menu, itemId: string): Result<seq<ItemGroup>>
  {
    ListGroups(m.variantGroups, m.variantGroupIdsByItem, itemId)
  }
}
