/** The in-memory catalog repositories that carry a domain rule
    (internal/infra/db/repository/{category_item,addon_option,item_addon_group,
    item_variant_group}). Each keeps a map from id to record and a secondary
    index from a parent id to the ids created under it, in creation order. */
module CatalogRepos {
  import opened Errx
  import opened Catalog
  import opened Repository

  // ---------- category items ----------

  /** Create's input checks for a category item, in the order they apply. */
  function CheckCategoryItem(i: CategoryItem): (r: Option<Error>)
    ensures r.None? <==> i.id != "" && i.categoryId != "" && i.name != "" && i.basePrice >= 0
    ensures r.Some? ==> CodeOf(r.value) == CodeInvalid
  {
    if i.id == "" then Some(New(CodeInvalid, "missing id"))
    else if i.categoryId == "" then Some(New(CodeInvalid, "missing categoryId"))
    else if i.name == "" then Some(New(CodeInvalid, "missing name"))
    else if i.basePrice < 0 then Some(New(CodeInvalid, "basePrice must be >= 0"))
    else None
  }

  class CategoryItemRepo {
    var byId: map<string, CategoryItem>
    var byCategory: map<string, seq<string>>

    /** Every stored item passed Create's checks, is keyed by its id and is
        listed under its category. */
    ghost predicate Valid()
      reads this
    {
      && (forall id :: id in byId ==> byId[id].id == id && CheckCategoryItem(byId[id]).None?)
      && IndexedBy(byId, byCategory, (i: CategoryItem) => i.categoryId)
    }

    constructor()
      ensures Valid() && byId == map[] && byCategory == map[]
    {
      byId := map[];
      byCategory := map[];
    }

    method Create(i: CategoryItem) returns (err: Option<Error>)
      requires Valid()
      modifies this
      ensures Valid()
      ensures err == (if CheckCategoryItem(i).Some? then CheckCategoryItem(i)
                      else if i.id in old(byId) then Some(New(CodeConflict, "item already exists"))
                      else None)
      ensures err.Some? ==> byId == old(byId) && byCategory == old(byCategory)
      ensures err.None? ==> byId == old(byId)[i.id := i]
      ensures err.None? ==> byCategory == old(byCategory)[i.categoryId := IdsUnder(old(byCategory), i.categoryId) + [i.id]]
      ensures err.None? ==> GetByID(i.id) == Ok(i)
      ensures err.None? ==> Collect(IdsUnder(byCategory, i.categoryId), byId) == Collect(IdsUnder(old(byCategory), i.categoryId), old(byId)) + [i]
    {
      err := CheckCategoryItem(i);
      if err.Some? {
        return;
      }
      if i.id in byId {
        return Some(New(CodeConflict, "item already exists"));
      }
      IndexedByInsert(byId, byCategory, (i: CategoryItem) => i.categoryId, i.id, i);
      CollectAfterInsert(IdsUnder(byCategory, i.categoryId), byId, i.id, i);
      byCategory := byCategory[i.categoryId := IdsUnder(byCategory, i.categoryId) + [i.id]];
      byId := byId[i.id := i];
    }

    function GetByID(id: string): (r: Result<CategoryItem>)
      reads this
      ensures Valid() && r.Ok? ==> r.value.id == id && r.value.basePrice >= 0
    {
      GetById(byId, id, "item not found")
    }

    method ListByCategoryID(categoryId: string) returns (r: Result<seq<CategoryItem>>)
      requires Valid()
      ensures categoryId == "" ==> r == Err(New(CodeInvalid, "missing categoryId"))
      ensures categoryId != "" ==> r == Ok(Collect(IdsUnder(byCategory, categoryId), byId))
      ensures r.Ok? ==> |r.value| == |IdsUnder(byCategory, categoryId)|
      ensures r.Ok? ==> forall k :: 0 <= k < |r.value| ==> r.value[k].categoryId == categoryId && r.value[k].basePrice >= 0
    {
      if categoryId == "" {
        return Err(New(CodeInvalid, "missing categoryId"));
      }
      var out := CollectListed(IdsUnder(byCategory, categoryId), byId);
      forall k | 0 <= k < |out|
        ensures out[k].categoryId == categoryId && out[k].basePrice >= 0
      {
        CollectFromIndex(IdsUnder(byCategory, categoryId), byId, k);
      }
      return Ok(out);
    }
  }

  // ---------- addon options ----------

  /** Create's input checks for an addon option, in the order they apply. */
  function CheckAddonOption(o: AddonOption): (r: Option<Error>)
    ensures r.None? <==> o.id != "" && o.addonGroupId != "" && o.name != "" && o.price >= 0
    ensures r.Some? ==> CodeOf(r.value) == CodeInvalid
  {
    if o.id == "" then Some(New(CodeInvalid, "missing id"))
    else if o.addonGroupId == "" then Some(New(CodeInvalid, "missing groupId"))
    else if o.name == "" then Some(New(CodeInvalid, "missing name"))
    else if o.price < 0 then Some(New(CodeInvalid, "price must be >= 0"))
    else None
  }

  class AddonOptionRepo {
    var byId: map<string, AddonOption>
    var byGroup: map<string, seq<string>>

    ghost predicate Valid()
      reads this
    {
      && (forall id :: id in byId ==> byId[id].id == id && CheckAddonOption(byId[id]).None?)
      && IndexedBy(byId, byGroup, (o: AddonOption) => o.addonGroupId)
    }

    constructor()
      ensures Valid() && byId == map[] && byGroup == map[]
    {
      byId := map[];
      byGroup := map[];
    }

    method Create(o: AddonOption) returns (err: Option<Error>)
      requires Valid()
      modifies this
      ensures Valid()
      ensures err == (if CheckAddonOption(o).Some? then CheckAddonOption(o)
                      else if o.id in old(byId) then Some(New(CodeConflict, "addon option already exists"))
                      else None)
      ensures err.Some? ==> byId == old(byId) && byGroup == old(byGroup)
      ensures err.None? ==> byId == old(byId)[o.id := o]
      ensures err.None? ==> byGroup == old(byGroup)[o.addonGroupId := IdsUnder(old(byGroup), o.addonGroupId) + [o.id]]
      ensures err.None? ==> GetByID(o.id) == Ok(o)
      ensures err.None? ==> Collect(IdsUnder(byGroup, o.addonGroupId), byId) == Collect(IdsUnder(old(byGroup), o.addonGroupId), old(byId)) + [o]
    {
      err := CheckAddonOption(o);
      if err.Some? {
        return;
      }
      if o.id in byId {
        return Some(New(CodeConflict, "addon option already exists"));
      }
      IndexedByInsert(byId, byGroup, (o: AddonOption) => o.addonGroupId, o.id, o);
      CollectAfterInsert(IdsUnder(byGroup, o.addonGroupId), byId, o.id, o);
      byGroup := byGroup[o.addonGroupId := IdsUnder(byGroup, o.addonGroupId) + [o.id]];
      byId := byId[o.id := o];
    }

    function GetByID(id: string): (r: Result<AddonOption>)
      reads this
      ensures Valid() && r.Ok? ==> r.value.id == id && r.value.price >= 0
    {
      GetById(byId, id, "addon option not found")
    }

    method ListByAddonGroupID(groupId: string) returns (r: Result<seq<AddonOption>>)
      requires Valid()
      ensures groupId == "" ==> r == Err(New(CodeInvalid, "missing groupId"))
      ensures groupId != "" ==> r == Ok(Collect(IdsUnder(byGroup, groupId), byId))
      ensures r.Ok? ==> |r.value| == |IdsUnder(byGroup, groupId)|
      ensures r.Ok? ==> forall k :: 0 <= k < |r.value| ==> r.value[k].addonGroupId == groupId && r.value[k].price >= 0
    {
      if groupId == "" {
        return Err(New(CodeInvalid, "missing groupId"));
      }
      var out := CollectListed(IdsUnder(byGroup, groupId), byId);
      forall k | 0 <= k < |out|
        ensures out[k].addonGroupId == groupId && out[k].price >= 0
      {
        CollectFromIndex(IdsUnder(byGroup, groupId), byId, k);
      }
      return Ok(out);
    }
  }

  // ---------- addon groups and variant groups of an item ----------

  /** The addon-group and the variant-group repositories are the same code with
      different messages. */
  datatype GroupKind = AddonGroups | VariantGroups

  function GroupNoun(kind: GroupKind): string
  {
    match kind
    case AddonGroups => "addon group"
    case VariantGroups => "variant group"
  }

  /** Create's input checks for a group, in the order they apply. */
  function CheckGroup(g: ItemGroup): (r: Option<Error>)
    ensures r.None? <==> g.id != "" && g.itemId != "" && g.name != "" && SelectBoundsOk(g)
    ensures r.Some? ==> CodeOf(r.value) == CodeInvalid
    ensures g.id != "" && g.itemId != "" && g.name != "" && (g.minSelect < 0 || g.maxSelect < 0) ==>
              r == Some(New(CodeInvalid, "invalid min/max select"))
  {
    if g.id == "" then Some(New(CodeInvalid, "missing id"))
    else if g.itemId == "" then Some(New(CodeInvalid, "missing category item ID"))
    else if g.name == "" then Some(New(CodeInvalid, "missing name"))
    else if g.minSelect < 0 || g.maxSelect < 0 || (g.maxSelect > 0 && g.minSelect > g.maxSelect) then
      Some(New(CodeInvalid, "invalid min/max select"))
    else None
  }

  class ItemGroupRepo {
    const kind: GroupKind
    var byId: map<string, ItemGroup>
    var byCategoryItem: map<string, seq<string>>

    /** Every stored group has sane select bounds and is listed under its item. */
    ghost predicate Valid()
      reads this
    {
      && (forall id :: id in byId ==> byId[id].id == id && CheckGroup(byId[id]).None?)
      && IndexedBy(byId, byCategoryItem, (g: ItemGroup) => g.itemId)
    }

    constructor(kind: GroupKind)
      ensures Valid() && this.kind == kind && byId == map[] && byCategoryItem == map[]
    {
      this.kind := kind;
      byId := map[];
      byCategoryItem := map[];
    }

    method Create(g: ItemGroup) returns (err: Option<Error>)
      requires Valid()
      modifies this
      ensures Valid()
      ensures err == (if CheckGroup(g).Some? then CheckGroup(g)
                      else if g.id in old(byId) then Some(New(CodeConflict, GroupNoun(kind) + " already exists"))
                      else None)
      ensures err.Some? ==> byId == old(byId) && byCategoryItem == old(byCategoryItem)
      ensures err.None? ==> byId == old(byId)[g.id := g]
      ensures err.None? ==> byCategoryItem == old(byCategoryItem)[g.itemId := IdsUnder(old(byCategoryItem), g.itemId) + [g.id]]
      ensures err.None? ==> GetByID(g.id) == Ok(g)
      ensures err.None? ==> ListByCategoryItemID(g.itemId) == Ok(old(Collect(IdsUnder(byCategoryItem, g.itemId), byId)) + [g])
    {
      err := CheckGroup(g);
      if err.Some? {
        return;
      }
      if g.id in byId {
        return Some(New(CodeConflict, GroupNoun(kind) + " already exists"));
      }
      IndexedByInsert(byId, byCategoryItem, (g: ItemGroup) => g.itemId, g.id, g);
      CollectAfterInsert(IdsUnder(byCategoryItem, g.itemId), byId, g.id, g);
      byCategoryItem := byCategoryItem[g.itemId := IdsUnder(byCategoryItem, g.itemId) + [g.id]];
      byId := byId[g.id := g];
    }

    function GetByID(id: string): (r: Result<ItemGroup>)
      reads this
      ensures Valid() && r.Ok? ==> r.value.id == id && SelectBoundsOk(r.value)
    {
      GetById(byId, id, GroupNoun(kind) + " not found")
    }

    /** ListByCategoryItemID, as the menu view reads it. */
    function ListByCategoryItemID(itemId: string): (r: Result<seq<ItemGroup>>)
      reads this
      ensures Valid() && r.Ok? ==> |r.value| == |IdsUnder(byCategoryItem, itemId)|
    {
      ListGroups(byId, byCategoryItem, itemId)
    }

    /** The listing loop of ListByCategoryItemID. */
    method ListByCategoryItem(itemId: string) returns (r: Result<seq<ItemGroup>>)
      requires Valid()
      ensures r == ListByCategoryItemID(itemId)
      ensures r.Ok? ==> forall k :: 0 <= k < |r.value| ==> r.value[k].itemId == itemId && SelectBoundsOk(r.value[k])
    {
      if itemId == "" {
        return Err(New(CodeInvalid, "missing category item ID"));
      }
      var out := CollectListed(IdsUnder(byCategoryItem, itemId), byId);
      forall k | 0 <= k < |out|
        ensures out[k].itemId == itemId && SelectBoundsOk(out[k])
      {
        CollectFromIndex(IdsUnder(byCategoryItem, itemId), byId, k);
      }
      return Ok(out);
    }
  }

  /** The catalog the menu read facade exposes, read off the repositories it
      delegates to. Variant options come from a repository that is not part of
      this model, so they are passed as a map. */
  function MenuOf(items: CategoryItemRepo, addonGroups: ItemGroupRepo, addonOptions: AddonOptionRepo,
                  variantGroups: ItemGroupRepo, variantOptions: map<string, VariantOption>): (m: Menu)
    reads items, addonGroups, addonOptions, variantGroups
    ensures forall id :: GetCategoryItemById(m, id) == items.GetByID(id)
    ensures forall id :: GetAddonOptionById(m, id) == addonOptions.GetByID(id)
    ensures forall id :: ListItemAddonGroupsByItemId(m, id) == addonGroups.ListByCategoryItemID(id)
    ensures forall id :: ListItemVariantGroupsByItemId(m, id) == variantGroups.ListByCategoryItemID(id)
  {
    Menu(items.byId, addonGroups.byId, addonGroups.byCategoryItem, addonOptions.byId,
         variantGroups.byId, variantGroups.byCategoryItem, variantOptions)
  }

  /** Every group a valid repository lists for an item belongs to that item. */
  lemma ListedGroupsBelongToItem(repo: ItemGroupRepo, itemId: string, k: int)
    requires repo.Valid()
    requires repo.ListByCategoryItemID(itemId).Ok? && 0 <= k < |repo.ListByCategoryItemID(itemId).value|
    ensures repo.ListByCategoryItemID(itemId).value[k].itemId == itemId
    ensures SelectBoundsOk(repo.ListByCategoryItemID(itemId).value[k])
  {
    CollectFromIndex(IdsUnder(repo.byCategoryItem, itemId), repo.byId, k);
  }
}
