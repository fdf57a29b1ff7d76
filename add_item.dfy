/** AddItem.Execute (internal/usecase/order/add_item.go): adds a menu item with
    its chosen variants and addons to a CREATED order, merging it into an
    existing line with the same signature (item, variants, addons and note)
    instead of adding a new line. */
module AddItem {
  import opened Errx
  import opened Text
  import opened Catalog
  import opened CatalogRepos
  import opened OrderEntity
  import opened OrderRepo
  import opened OrderDto
  import opened AddItemRules

  /** What AddItem resolved from the catalog before it checks the group rules. */
  datatype Selection = Selection(
    item: CategoryItem,
    addonGroups: map<string, ItemGroup>,
    variantGroups: map<string, ItemGroup>,
    variants: seq<OrderItemVariant>,
    addons: seq<OrderItemAddon>)

  /** The checks on the input alone, in the order they apply. */
  function InputError(input: AddItemInput): (r: Option<Error>)
    ensures r.None? <==> input.orderId != "" && input.itemId != "" && input.qty > 0
    ensures r.Some? ==> CodeOf(r.value) == CodeInvalid
  {
    if input.orderId == "" then Some(New(CodeInvalid, "missing orderId"))
    else if input.itemId == "" then Some(New(CodeInvalid, "missing itemId"))
    else if input.qty <= 0 then Some(New(CodeInvalid, "qty must be > 0"))
    else None
  }

  /** The catalog lookups, in the order they apply: the item, its addon and
      variant groups, the distinct variant options, then every addon. */
  function Select(m: Menu, input: AddItemInput): Result<Selection>
  {
    match GetCategoryItemById(m, input.itemId)
    case Err(e) => Err(e)
    case Ok(item) =>
      if !item.isActive then Err(New(CodeConflict, "item is inactive"))
      else match ListItemAddonGroupsByItemId(m, item.id)
      case Err(e) => Err(e)
      case Ok(ags) =>
        match ListItemVariantGroupsByItemId(m, item.id)
        case Err(e) => Err(e)
        case Ok(vgs) =>
          var aset := ActiveGroups(ags);
          var vset := ActiveGroups(vgs);
          match VariantSnapshots(m, vset, UniqueStrings(input.variantOptionIds))
          case Err(e) => Err(e)
          case Ok(vs) =>
            match AddonSnapshots(m, aset, input.addons)
            case Err(e) => Err(e)
            case Ok(as_) => Ok(Selection(item, aset, vset, vs, as_))
  }

  /** Both group checks pass: every active variant group and every active
      addon group of the item got an acceptable number of selections. */
  predicate RulesHold(sel: Selection)
  {
    && GroupsSatisfied(VariantGroups, sel.variantGroups, multiset(VariantGroupIds(sel.variants)))
    && GroupsSatisfied(AddonGroups, sel.addonGroups, multiset(AddonGroupIds(sel.addons)))
  }

  /** e is the error of some violated group: a variant group when any is
      violated (they are checked first), an addon group otherwise. */
  predicate RuleViolation(sel: Selection, e: Error)
  {
    if !GroupsSatisfied(VariantGroups, sel.variantGroups, multiset(VariantGroupIds(sel.variants))) then
      exists k :: k in sel.variantGroups && RuleError(VariantGroups, sel.variantGroups[k], multiset(VariantGroupIds(sel.variants))[k]) == Some(e)
    else
      exists k :: k in sel.addonGroups && RuleError(AddonGroups, sel.addonGroups[k], multiset(AddonGroupIds(sel.addons))[k]) == Some(e)
  }

  /** The lookups as Execute runs them, with the per-group counts the group
      checks read. */
  method SelectFor(m: Menu, input: AddItemInput)
    returns (r: Result<Selection>, vcount: map<string, int>, acount: map<string, int>)
    ensures r == Select(m, input)
    ensures r.Ok? ==> forall g :: Lookup(vcount, g) == multiset(VariantGroupIds(r.value.variants))[g]
    ensures r.Ok? ==> forall g :: Lookup(acount, g) == multiset(AddonGroupIds(r.value.addons))[g]
  {
    vcount, acount := map[], map[];
    var item := GetCategoryItemById(m, input.itemId);
    if item.Err? {
      return Err(item.error), vcount, acount;
    }
    if !item.value.isActive {
      return Err(New(CodeConflict, "item is inactive")), vcount, acount;
    }
    var ags := ListItemAddonGroupsByItemId(m, item.value.id);
    if ags.Err? {
      return Err(ags.error), vcount, acount;
    }
    var aset := GroupSet(ags.value);
    var vgs := ListItemVariantGroupsByItemId(m, item.value.id);
    if vgs.Err? {
      // Both listings fail only on an empty item id, and the first passed.
      assert false;
    }
    var vset := GroupSet(vgs.value);
    // uniqueStrings already drops blank ids, so the loop's own blank check
    // never fires and is not repeated here.
    var ids := Unique(input.variantOptionIds);
    var vs;
    vs, vcount := ResolveVariants(m, vset, ids);
    if vs.Err? {
      return Err(vs.error), vcount, acount;
    }
    var as_;
    as_, acount := ResolveAddons(m, aset, input.addons);
    if as_.Err? {
      return Err(as_.error), vcount, acount;
    }
    r := Ok(Selection(item.value, aset, vset, vs.value, as_.value));
  }

  // ---------- the merge signature ----------

  function VariantOptionId(v: OrderItemVariant): string
  {
    v.variantOptionId
  }

  function VariantIds(vs: seq<OrderItemVariant>): seq<string>
  {
    Map(VariantOptionId, vs)
  }

  function AddonPart(a: OrderItemAddon): string
  {
    a.addonOptionId + ":" + FormatInt(a.qty)
  }

  function AddonParts(as_: seq<OrderItemAddon>): seq<string>
  {
    Map(AddonPart, as_)
  }

  /** signature: the item id, the sorted variant option ids, the sorted
      "option:qty" addon parts and the trimmed note. */
  function Signature(itemId: string, vs: seq<OrderItemVariant>, as_: seq<OrderItemAddon>, note: string): string
  {
    itemId + "||v:" + Join(SortStrings(VariantIds(vs)), ",")
           + "||a:" + Join(SortStrings(AddonParts(as_)), ",")
           + "||n:" + TrimSpace(note)
  }

  /** signatureFromExisting. */
  function LineSignature(it: OrderItem): string
  {
    Signature(it.itemId, it.variants, it.addons, it.note)
  }

  /** The signature does not depend on the order of the selections, nor on
      white space around the note. */
  lemma SignatureIgnoresOrder(itemId: string, vs1: seq<OrderItemVariant>, vs2: seq<OrderItemVariant>,
                              as1: seq<OrderItemAddon>, as2: seq<OrderItemAddon>, note1: string, note2: string)
    requires multiset(VariantIds(vs1)) == multiset(VariantIds(vs2))
    requires multiset(AddonParts(as1)) == multiset(AddonParts(as2))
    requires TrimSpace(note1) == TrimSpace(note2)
    ensures Signature(itemId, vs1, as1, note1) == Signature(itemId, vs2, as2, note2)
  {
    SortStringsPermutationInvariant(VariantIds(vs1), VariantIds(vs2));
    SortStringsPermutationInvariant(AddonParts(as1), AddonParts(as2));
  }

  /** Reordering the snapshots themselves reorders their ids and parts. */
  lemma SignatureIgnoresPermutation(itemId: string, vs1: seq<OrderItemVariant>, vs2: seq<OrderItemVariant>,
                                    as1: seq<OrderItemAddon>, as2: seq<OrderItemAddon>, note: string)
    requires multiset(vs1) == multiset(vs2) && multiset(as1) == multiset(as2)
    ensures Signature(itemId, vs1, as1, note) == Signature(itemId, vs2, as2, note)
  {
    MapPermutation(VariantOptionId, vs1, vs2);
    MapPermutation(AddonPart, as1, as2);
    SignatureIgnoresOrder(itemId, vs1, vs2, as1, as2, note, note);
  }

  /** The two collecting loops of signature, then the sort and the joins. */
  method BuildSignature(itemId: string, vs: seq<OrderItemVariant>, as_: seq<OrderItemAddon>, note: string)
    returns (sig: string)
    ensures sig == Signature(itemId, vs, as_, note)
  {
    var varIds := CollectVariantIds(vs);
    var addParts := CollectAddonParts(as_);
    sig := itemId + "||v:" + Join(SortStrings(varIds), ",") + "||a:" + Join(SortStrings(addParts), ",")
           + "||n:" + TrimSpace(note);
  }

  /** signature's first loop: the chosen variant option ids, in order. */
  method CollectVariantIds(vs: seq<OrderItemVariant>) returns (varIds: seq<string>)
    ensures varIds == VariantIds(vs)
  {
    varIds := [];
    var i := 0;
    while i < |vs|
      invariant 0 <= i <= |vs|
      invariant |varIds| == i && forall k :: 0 <= k < i ==> varIds[k] == vs[k].variantOptionId
    {
      varIds := varIds + [vs[i].variantOptionId];
      i := i + 1;
    }
    assert varIds == VariantIds(vs);
  }

  /** signature's second loop: "optionId:qty" per addon, in order. */
  method CollectAddonParts(as_: seq<OrderItemAddon>) returns (addParts: seq<string>)
    ensures addParts == AddonParts(as_)
  {
    addParts := [];
    var j := 0;
    while j < |as_|
      invariant 0 <= j <= |as_|
      invariant |addParts| == j && forall k :: 0 <= k < j ==> addParts[k] == AddonPart(as_[k])
    {
      addParts := addParts + [as_[j].addonOptionId + ":" + FormatInt(as_[j].qty)];
      j := j + 1;
    }
    assert addParts == AddonParts(as_);
  }

  /** Index of the first element whose key is k, or -1. */
  function FirstWithKey<T>(s: seq<T>, key: T -> string, k: string): (r: int)
    ensures -1 <= r < |s|
    ensures r == -1 <==> forall j :: 0 <= j < |s| ==> key(s[j]) != k
    ensures r >= 0 ==> key(s[r]) == k && forall j :: 0 <= j < r ==> key(s[j]) != k
  {
    if s == [] then -1
    else if key(s[0]) == k then 0
    else
      var r := FirstWithKey(s[1..], key, k);
      if r == -1 then -1 else r + 1
  }

  /** Index of the first line with the given signature, or -1. */
  function IndexOfSignature(items: seq<OrderItem>, sig: string): int
  {
    FirstWithKey(items, LineSignature, sig)
  }

  /** The merge loop's search: the first element whose key matches. */
  method FindFirstWithKey<T>(s: seq<T>, key: T -> string, k: string) returns (idx: int)
    ensures idx == FirstWithKey(s, key, k)
  {
    var i := 0;
    while i < |s|
      invariant 0 <= i <= |s|
      invariant forall j :: 0 <= j < i ==> key(s[j]) != k
    {
      if key(s[i]) == k {
        return i;
      }
      i := i + 1;
    }
    return -1;
  }

  // ---------- the saved order ----------

  /** The new line: the item's id, name and base price, the input quantity,
      the snapshots and the note as given. */
  function NewLine(lineId: string, sel: Selection, input: AddItemInput): OrderItem
  {
    OrderItem(lineId, sel.item.id, sel.item.name, input.qty, sel.item.basePrice, 0, sel.variants, sel.addons, input.note)
  }

  function Merged(items: seq<OrderItem>, idx: int, qty: int): seq<OrderItem>
    requires 0 <= idx < |items|
  {
    items[idx := items[idx].(qty := items[idx].qty + qty)]
  }

  /** The order as it is saved: the matching line's quantity grows by the
      input quantity, or a new line is appended; then totals are recalculated. */
  function Saved(o: Order, input: AddItemInput, sel: Selection, lineId: string): Order
  {
    var idx := IndexOfSignature(o.items, Signature(sel.item.id, sel.variants, sel.addons, input.note));
    if idx >= 0 then Recalculated(o.(items := Merged(o.items, idx, input.qty)))
    else Recalculated(o.(items := o.items + [NewLine(lineId, sel, input)]))
  }

  /** The merge-or-append step: the new selection's signature, the search
      for a line with the same signature, then the recalculation. */
  method AddToLines(o: Order, input: AddItemInput, sel: Selection, lineId: string) returns (saved: Order)
    ensures saved == Saved(o, input, sel, lineId)
  {
    var sig := BuildSignature(sel.item.id, sel.variants, sel.addons, input.note);
    var idx := FindFirstWithKey(o.items, LineSignature, sig);
    var edited := o;
    if idx >= 0 {
      edited := o.(items := Merged(o.items, idx, input.qty));
    } else {
      edited := o.(items := o.items + [NewLine(lineId, sel, input)]);
    }
    saved := RecalculateTotals(edited);
  }

  /** validateVariantGroups, then validateAddonGroups. */
  method CheckRules(sel: Selection, vcount: map<string, int>, acount: map<string, int>) returns (err: Option<Error>)
    requires forall g :: Lookup(vcount, g) == multiset(VariantGroupIds(sel.variants))[g]
    requires forall g :: Lookup(acount, g) == multiset(AddonGroupIds(sel.addons))[g]
    ensures err.None? <==> RulesHold(sel)
    ensures err.Some? ==> RuleViolation(sel, err.value)
  {
    err := ValidateGroups(VariantGroups, sel.variantGroups, vcount, multiset(VariantGroupIds(sel.variants)));
    if err.Some? {
      return;
    }
    err := ValidateGroups(AddonGroups, sel.addonGroups, acount, multiset(AddonGroupIds(sel.addons)));
  }

  /** Everything Execute does between reading the order and saving it. */
  method Prepare(o: Order, m: Menu, input: AddItemInput, lineId: string) returns (r: Result<Order>)
    ensures Select(m, input).Err? ==> r == Err(Select(m, input).error)
    ensures Select(m, input).Ok? && !RulesHold(Select(m, input).value) ==> r.Err? && RuleViolation(Select(m, input).value, r.error)
    ensures r.Ok? <==> Select(m, input).Ok? && RulesHold(Select(m, input).value)
    ensures r.Ok? ==> r.value == Saved(o, input, Select(m, input).value, lineId)
  {
    var sel, vcount, acount := SelectFor(m, input);
    if sel.Err? {
      return Err(sel.error);
    }
    var err := CheckRules(sel.value, vcount, acount);
    if err.Some? {
      return Err(err.value);
    }
    var saved := AddToLines(o, input, sel.value, lineId);
    return Ok(saved);
  }

  /** The repository's order can be edited by this input. */
  predicate Editable(byId: map<string, Order>, input: AddItemInput)
  {
    InputError(input).None? && input.orderId in byId && byId[input.orderId].status == OrderCreated
  }

  method Execute(repo: OrderRepo, m: Menu, input: AddItemInput, lineId: string) returns (r: Result<OrderDto>)
    requires repo.Valid()
    modifies repo
    ensures repo.Valid()
    ensures old(repo.DraftIndexExact()) ==> repo.DraftIndexExact()
    ensures InputError(input).Some? ==> r == Err(InputError(input).value)
    ensures InputError(input).None? && old(repo.GetByID(input.orderId)).Err? ==> r == Err(old(repo.GetByID(input.orderId)).error)
    ensures InputError(input).None? && old(repo.GetByID(input.orderId)).Ok? && old(repo.byId[input.orderId]).status != OrderCreated ==>
              r == Err(New(CodeConflict, "order is not editable"))
    ensures old(Editable(repo.byId, input)) && Select(m, input).Err? ==> r == Err(Select(m, input).error)
    ensures old(Editable(repo.byId, input)) && Select(m, input).Ok? && !RulesHold(Select(m, input).value) ==>
              r.Err? && RuleViolation(Select(m, input).value, r.error)
    ensures r.Ok? <==> old(Editable(repo.byId, input)) && Select(m, input).Ok? && RulesHold(Select(m, input).value)
    ensures r.Err? ==> repo.byId == old(repo.byId) && repo.activeDraft == old(repo.activeDraft)
    ensures r.Ok? ==> repo.byId == old(repo.byId)[input.orderId := Saved(old(repo.byId[input.orderId]), input, Select(m, input).value, lineId)]
    ensures r.Ok? ==> repo.activeDraft == old(repo.activeDraft)
    ensures r.Ok? ==> r.value == ToOrderDto(Saved(old(repo.byId[input.orderId]), input, Select(m, input).value, lineId))
  {
    var inErr := InputError(input);
    if inErr.Some? {
      return Err(inErr.value);
    }
    var got := repo.GetByID(input.orderId);
    if got.Err? {
      return Err(got.error);
    }
    var o := got.value;
    if o.status != OrderCreated {
      return Err(New(CodeConflict, "order is not editable"));
    }
    var prepared := Prepare(o, m, input, lineId);
    if prepared.Err? {
      return Err(prepared.error);
    }
    o := prepared.value;
    var updErr := repo.Update(o);
    if updErr.Some? {
      // The stored order passed Update's field checks and stays CREATED.
      assert false;
    }
    return Ok(ToOrderDto(o));
  }

  // ---------- properties ----------

  /** e is o with line idx's quantity grown by qty: same header, same line
      count, that line's id, item, name, base price, snapshots and note kept,
      every other line unchanged up to the money fields, and priced. */
  predicate MergedInto(o: Order, idx: int, qty: int, e: Order)
    requires 0 <= idx < |o.items|
  {
    && e.id == o.id && e.userId == o.userId && e.storeId == o.storeId && e.status == o.status
    && |e.items| == |o.items|
    && e.items[idx].qty == o.items[idx].qty + qty && e.items[idx].id == o.items[idx].id
    && SameLineExceptTotals(o.items[idx].(qty := o.items[idx].qty + qty), e.items[idx])
    && (forall k :: 0 <= k < |o.items| && k != idx ==> SameLineExceptTotals(o.items[k], e.items[k]))
    && e.subtotal == ExpectedSubtotal(Merged(o.items, idx, qty))
    && e.total == e.subtotal + o.fees
  }

  /** e is o with one more line, `line`, at the end: same header, every old
      line unchanged up to the money fields, and priced. */
  predicate AppendedTo(o: Order, line: OrderItem, e: Order)
  {
    && e.id == o.id && e.userId == o.userId && e.storeId == o.storeId && e.status == o.status
    && |e.items| == |o.items| + 1
    && SameLineExceptTotals(line, e.items[|o.items|])
    && (forall k :: 0 <= k < |o.items| ==> SameLineExceptTotals(o.items[k], e.items[k]))
    && e.subtotal == ExpectedSubtotal(o.items + [line])
    && e.total == e.subtotal + o.fees
  }

  /** The saved order either grows the matching line's quantity by the input
      quantity or gets exactly one new line at the end; every other line
      keeps its contents, and the totals are those the lines and fees call
      for. */
  lemma SavedMergesOrAppends(o: Order, input: AddItemInput, sel: Selection, lineId: string)
    ensures var idx := IndexOfSignature(o.items, Signature(sel.item.id, sel.variants, sel.addons, input.note));
      idx >= 0 ==> MergedInto(o, idx, input.qty, Saved(o, input, sel, lineId))
    ensures var idx := IndexOfSignature(o.items, Signature(sel.item.id, sel.variants, sel.addons, input.note));
      idx < 0 ==> AppendedTo(o, NewLine(lineId, sel, input), Saved(o, input, sel, lineId))
  {
    var idx := IndexOfSignature(o.items, Signature(sel.item.id, sel.variants, sel.addons, input.note));
    if idx >= 0 {
      MergeKeepsLines(o, idx, input.qty);
    } else {
      AppendKeepsLines(o, NewLine(lineId, sel, input));
    }
  }

  /** Recalculation after a merge keeps everything but that line's quantity. */
  lemma MergeKeepsLines(o: Order, idx: int, qty: int)
    requires 0 <= idx < |o.items|
    ensures MergedInto(o, idx, qty, Recalculated(o.(items := Merged(o.items, idx, qty))))
  {
    var edited := o.(items := Merged(o.items, idx, qty));
    RecalculatedKeepsEverythingElse(edited);
    RecalculatedSubtotal(edited);
    var e := Recalculated(edited);
    assert SameLineExceptTotals(edited.items[idx], e.items[idx]);
    forall k | 0 <= k < |o.items| && k != idx
      ensures SameLineExceptTotals(o.items[k], e.items[k])
    {
      assert edited.items[k] == o.items[k];
      assert SameLineExceptTotals(edited.items[k], e.items[k]);
    }
  }

  /** Recalculation after an append keeps the old lines and puts the new one last. */
  lemma AppendKeepsLines(o: Order, line: OrderItem)
    ensures AppendedTo(o, line, Recalculated(o.(items := o.items + [line])))
  {
    var edited := o.(items := o.items + [line]);
    RecalculatedKeepsEverythingElse(edited);
    RecalculatedSubtotal(edited);
    var e := Recalculated(edited);
    forall k | 0 <= k < |o.items|
      ensures SameLineExceptTotals(o.items[k], e.items[k])
    {
      assert edited.items[k] == o.items[k];
      assert SameLineExceptTotals(edited.items[k], e.items[k]);
    }
    assert SameLineExceptTotals(edited.items[|o.items|], e.items[|o.items|]);
  }

  /** The part of RecalculatedTotalsCorrect the merge and append steps use. */
  lemma RecalculatedSubtotal(o: Order)
    ensures Recalculated(o).subtotal == ExpectedSubtotal(o.items)
    ensures Recalculated(o).total == Recalculated(o).subtotal + o.fees
  {
    RecalculatedTotalsCorrect(o);
  }

  /** Adding the same item again with the same selections, in any order, and
      a note equal up to surrounding white space, merges into an existing
      line (the first one with that signature) instead of adding a line. */
  lemma RepeatedSelectionMerges(o: Order, input: AddItemInput, sel: Selection, lineId: string, k: int)
    requires 0 <= k < |o.items|
    requires o.items[k].itemId == sel.item.id
    requires multiset(VariantIds(o.items[k].variants)) == multiset(VariantIds(sel.variants))
    requires multiset(AddonParts(o.items[k].addons)) == multiset(AddonParts(sel.addons))
    requires TrimSpace(o.items[k].note) == TrimSpace(input.note)
    ensures |Saved(o, input, sel, lineId).items| == |o.items|
    ensures exists j :: 0 <= j <= k && Saved(o, input, sel, lineId).items[j].qty == o.items[j].qty + input.qty
  {
    var it := o.items[k];
    var sig := Signature(sel.item.id, sel.variants, sel.addons, input.note);
    SignatureIgnoresOrder(sel.item.id, it.variants, sel.variants, it.addons, sel.addons, it.note, input.note);
    assert LineSignature(o.items[k]) == sig;
    var idx := IndexOfSignature(o.items, sig);
    assert 0 <= idx <= k;
    SavedMergesOrAppends(o, input, sel, lineId);
  }

  /** What a successful selection holds: the active item, one snapshot per
      distinct variant id and per addon entry, each of an active option of
      one of the item's active groups, priced as the catalog prices it. */
  lemma SelectedSnapshots(m: Menu, input: AddItemInput)
    requires Select(m, input).Ok?
    ensures var sel := Select(m, input).value; var ids := UniqueStrings(input.variantOptionIds);
      && input.itemId in m.items && sel.item == m.items[input.itemId] && sel.item.isActive
      && (forall g :: g in sel.variantGroups ==> sel.variantGroups[g].isActive && sel.variantGroups[g].id == g)
      && (forall g :: g in sel.addonGroups ==> sel.addonGroups[g].isActive && sel.addonGroups[g].id == g)
      && |sel.variants| == |ids|
      && (forall k :: 0 <= k < |ids| ==>
            && ids[k] in m.variantOptions && m.variantOptions[ids[k]].isActive
            && sel.variants[k].variantGroupId == m.variantOptions[ids[k]].variantGroupId
            && sel.variants[k].variantGroupId in sel.variantGroups
            && sel.variants[k].priceDelta == m.variantOptions[ids[k]].priceDelta
            && sel.variants[k].variantOptionId == m.variantOptions[ids[k]].id
            && sel.variants[k].optionName == m.variantOptions[ids[k]].name
            && sel.variants[k].variantGroup == sel.variantGroups[sel.variants[k].variantGroupId].name)
      && |sel.addons| == |input.addons|
      && (forall k :: 0 <= k < |input.addons| ==>
            && input.addons[k].optionId in m.addonOptions && m.addonOptions[input.addons[k].optionId].isActive
            && sel.addons[k].addonGroupId == m.addonOptions[input.addons[k].optionId].addonGroupId
            && sel.addons[k].addonGroupId in sel.addonGroups
            && sel.addons[k].qty == input.addons[k].qty > 0
            && sel.addons[k].unitPrice == m.addonOptions[input.addons[k].optionId].price
            && sel.addons[k].addonOptionId == m.addonOptions[input.addons[k].optionId].id
            && sel.addons[k].optionName == m.addonOptions[input.addons[k].optionId].name
            && sel.addons[k].addonGroup == sel.addonGroups[sel.addons[k].addonGroupId].name)
  {
    var sel := Select(m, input).value;
    SelectParts(m, input);
    VariantSnapshotsSound(m, sel.variantGroups, UniqueStrings(input.variantOptionIds), sel.variants);
    AddonSnapshotsSound(m, sel.addonGroups, input.addons, sel.addons);
  }

  /** Which error Select returns: the item lookup's, then "item is inactive",
      then the first variant id that fails to resolve, then the first addon
      selection that fails. With the item and its groups found, Select fails
      exactly when some option fails to resolve. */
  lemma SelectErrors(m: Menu, input: AddItemInput)
    ensures input.itemId == "" ==> Select(m, input) == Err(New(CodeInvalid, "missing id"))
    ensures input.itemId != "" && input.itemId !in m.items ==> Select(m, input) == Err(New(CodeNotFound, "item not found"))
    ensures input.itemId != "" && input.itemId in m.items && !m.items[input.itemId].isActive ==>
      Select(m, input) == Err(New(CodeConflict, "item is inactive"))
    ensures input.itemId != "" && input.itemId in m.items && m.items[input.itemId].isActive && m.items[input.itemId].id != "" ==>
      var item := m.items[input.itemId];
      var vs := VariantSnapshots(m, ActiveGroups(ListItemVariantGroupsByItemId(m, item.id).value), UniqueStrings(input.variantOptionIds));
      var as_ := AddonSnapshots(m, ActiveGroups(ListItemAddonGroupsByItemId(m, item.id).value), input.addons);
      && (Select(m, input).Err? <==> vs.Err? || as_.Err?)
      && (vs.Err? ==> Select(m, input) == Err(vs.error))
      && (vs.Ok? && as_.Err? ==> Select(m, input) == Err(as_.error))
  {
  }

  /** What each step of a successful Select contributed. */
  lemma SelectParts(m: Menu, input: AddItemInput)
    requires Select(m, input).Ok?
    ensures var sel := Select(m, input).value;
      && input.itemId in m.items && sel.item == m.items[input.itemId] && sel.item.isActive
      && (forall g :: g in sel.variantGroups ==> sel.variantGroups[g].isActive && sel.variantGroups[g].id == g)
      && (forall g :: g in sel.addonGroups ==> sel.addonGroups[g].isActive && sel.addonGroups[g].id == g)
      && VariantSnapshots(m, sel.variantGroups, UniqueStrings(input.variantOptionIds)) == Ok(sel.variants)
      && AddonSnapshots(m, sel.addonGroups, input.addons) == Ok(sel.addons)
  {
  }

  /** Each variant snapshot comes from an active option of an allowed group. */
  lemma VariantSnapshotsSound(m: Menu, groups: map<string, ItemGroup>, ids: seq<string>, vs: seq<OrderItemVariant>)
    requires forall g :: g in groups ==> groups[g].id == g
    requires VariantSnapshots(m, groups, ids) == Ok(vs)
    ensures |vs| == |ids|
    ensures forall k :: 0 <= k < |ids| ==>
              && ids[k] in m.variantOptions && m.variantOptions[ids[k]].isActive
              && vs[k].variantGroupId == m.variantOptions[ids[k]].variantGroupId
              && vs[k].variantGroupId in groups
              && vs[k].priceDelta == m.variantOptions[ids[k]].priceDelta
              && vs[k].variantOptionId == m.variantOptions[ids[k]].id
              && vs[k].optionName == m.variantOptions[ids[k]].name
              && vs[k].variantGroup == groups[vs[k].variantGroupId].name
  {
    forall k | 0 <= k < |ids|
      ensures && ids[k] in m.variantOptions && m.variantOptions[ids[k]].isActive
              && vs[k].variantGroupId == m.variantOptions[ids[k]].variantGroupId
              && vs[k].variantGroupId in groups
              && vs[k].priceDelta == m.variantOptions[ids[k]].priceDelta
              && vs[k].variantOptionId == m.variantOptions[ids[k]].id
              && vs[k].optionName == m.variantOptions[ids[k]].name
              && vs[k].variantGroup == groups[vs[k].variantGroupId].name
    {
      assert ResolveVariant(m, groups, ids[k]).Ok?;
    }
  }

  /** Each addon snapshot comes from an active option of an allowed group. */
  lemma AddonSnapshotsSound(m: Menu, groups: map<string, ItemGroup>, sel: seq<AddonSelection>, as_: seq<OrderItemAddon>)
    requires forall g :: g in groups ==> groups[g].id == g
    requires AddonSnapshots(m, groups, sel) == Ok(as_)
    ensures |as_| == |sel|
    ensures forall k :: 0 <= k < |sel| ==>
              && sel[k].optionId in m.addonOptions && m.addonOptions[sel[k].optionId].isActive
              && as_[k].addonGroupId == m.addonOptions[sel[k].optionId].addonGroupId
              && as_[k].addonGroupId in groups
              && as_[k].qty == sel[k].qty > 0
              && as_[k].unitPrice == m.addonOptions[sel[k].optionId].price
              && as_[k].addonOptionId == m.addonOptions[sel[k].optionId].id
              && as_[k].optionName == m.addonOptions[sel[k].optionId].name
              && as_[k].addonGroup == groups[as_[k].addonGroupId].name
  {
    forall k | 0 <= k < |sel|
      ensures && sel[k].optionId in m.addonOptions && m.addonOptions[sel[k].optionId].isActive
              && as_[k].addonGroupId == m.addonOptions[sel[k].optionId].addonGroupId
              && as_[k].addonGroupId in groups
              && as_[k].qty == sel[k].qty > 0
              && as_[k].unitPrice == m.addonOptions[sel[k].optionId].price
              && as_[k].addonOptionId == m.addonOptions[sel[k].optionId].id
              && as_[k].optionName == m.addonOptions[sel[k].optionId].name
              && as_[k].addonGroup == groups[as_[k].addonGroupId].name
    {
      assert ResolveAddon(m, groups, sel[k]).Ok?;
    }
  }
}
