/** The selection rules of AddItem (internal/usecase/order/add_item.go): the
    de-duplicated variant option ids, the item's active groups, the snapshots
    each chosen option turns into, and the Required/Min/Max check per group. */
module AddItemRules {
  import opened Errx
  import opened Text
  import opened Repository
  import opened Catalog
  import opened CatalogRepos
  import opened OrderEntity

  datatype AddonSelection = AddonSelection(optionId: string, qty: int)

  datatype AddItemInput = AddItemInput(
    orderId: string,
    itemId: string,
    qty: int,
    variantOptionIds: seq<string>,
    addons: seq<AddonSelection>,
    note: string)

  // ---------- uniqueStrings ----------

  /** The non-empty values of ts in first-seen order, each once. */
  function Dedup(ts: seq<string>): (r: seq<string>)
    ensures NoDuplicates(r)
    ensures forall k :: 0 <= k < |r| ==> r[k] != "" && r[k] in ts
  {
    if ts == [] then []
    else
      var n := |ts| - 1;
      var u := Dedup(ts[..n]);
      if ts[n] == "" || ts[n] in u then u else u + [ts[n]]
  }

  /** Dedup keeps every non-empty value. */
  lemma {:induction false} DedupMembers(ts: seq<string>, x: string)
    ensures x in Dedup(ts) <==> x != "" && x in ts
  {
    if ts != [] {
      var n := |ts| - 1;
      DedupMembers(ts[..n], x);
      assert ts == ts[..n] + [ts[n]];
    }
  }

  /** uniqueStrings: trim every id, then keep the non-blank ones in
      first-seen order, each once. */
  function UniqueStrings(s: seq<string>): seq<string>
  {
    Dedup(Map(TrimSpace, s))
  }

  /** The ids uniqueStrings returns are trimmed, not blank and distinct, and
      they are exactly the ids that are not blank once trimmed. */
  lemma UniqueStringsSpec(s: seq<string>)
    ensures NoDuplicates(UniqueStrings(s))
    ensures forall k :: 0 <= k < |UniqueStrings(s)| ==> UniqueStrings(s)[k] != "" && Trimmed(UniqueStrings(s)[k])
    ensures forall x :: x in UniqueStrings(s) <==> x != "" && x in Map(TrimSpace, s)
  {
    var ts := Map(TrimSpace, s);
    forall k | 0 <= k < |s|
      ensures Trimmed(ts[k])
    {
      TrimSpaceTrims(s[k]);
    }
    forall x
      ensures x in Dedup(ts) <==> x != "" && x in ts
    {
      DedupMembers(ts, x);
    }
  }

  /** Mapping one more value and keeping it if it is new. */
  lemma DedupMapStep(f: string -> string, s: seq<string>, i: int)
    requires 0 <= i < |s|
    ensures var u := Dedup(Map(f, s[..i])); var t := f(s[i]);
      Dedup(Map(f, s[..i + 1])) == if t == "" || t in u then u else u + [t]
  {
    MapAppend(f, s[..i], [s[i]]);
    assert s[..i + 1] == s[..i] + [s[i]];
    var ts := Map(f, s[..i + 1]);
    assert ts[..i] == Map(f, s[..i]);
  }

  /** The `seen` set mirrors the ids kept so far. */
  lemma SeenStep(seen: set<string>, out: seq<string>, t: string)
    requires forall x :: x in seen <==> x in out
    ensures t in seen <==> t in out
    ensures forall x :: x in seen + {t} <==> x in out + [t]
  {
  }

  /** The loop of uniqueStrings, with its `seen` set. */
  method Unique(s: seq<string>) returns (out: seq<string>)
    ensures out == UniqueStrings(s)
  {
    var seen: set<string> := {};
    out := [];
    var i := 0;
    while i < |s|
      invariant 0 <= i <= |s|
      invariant out == Dedup(Map(TrimSpace, s[..i]))
      invariant forall x :: x in seen <==> x in out
    {
      var t := TrimSpace(s[i]);
      DedupMapStep(TrimSpace, s, i);
      SeenStep(seen, out, t);
      if t != "" && t !in seen {
        seen := seen + {t};
        out := out + [t];
      }
      i := i + 1;
    }
    assert s[..i] == s;
  }

  // ---------- the item's active groups ----------

  /** The active groups of a listing, by id (a later group with the same id
      replaces an earlier one, as a map assignment does). */
  function ActiveGroups(gs: seq<ItemGroup>): (r: map<string, ItemGroup>)
    ensures forall k :: k in r ==> r[k].id == k && r[k].isActive && r[k] in gs
    ensures forall j :: 0 <= j < |gs| && gs[j].isActive ==> gs[j].id in r
  {
    if gs == [] then map[]
    else
      var n := |gs| - 1;
      var m := ActiveGroups(gs[..n]);
      assert forall g :: g in gs[..n] ==> g in gs;
      assert forall j :: 0 <= j < n ==> gs[..n][j] == gs[j];
      if gs[n].isActive then m[gs[n].id := gs[n]] else m
  }

  method GroupSet(gs: seq<ItemGroup>) returns (set_: map<string, ItemGroup>)
    ensures set_ == ActiveGroups(gs)
  {
    set_ := map[];
    var i := 0;
    while i < |gs|
      invariant 0 <= i <= |gs|
      invariant set_ == ActiveGroups(gs[..i])
    {
      assert gs[..i + 1][..i] == gs[..i];
      if gs[i].isActive {
        set_ := set_[gs[i].id := gs[i]];
      }
      i := i + 1;
    }
    assert gs[..i] == gs;
  }

  // ---------- snapshots ----------

  /** One chosen variant option as the order line records it. */
  function ResolveVariant(m: Menu, groups: map<string, ItemGroup>, id: string): (r: Result<OrderItemVariant>)
    ensures r.Ok? ==> id in m.variantOptions && m.variantOptions[id].isActive
    ensures r.Ok? ==> m.variantOptions[id].variantGroupId in groups
    ensures r.Ok? ==> r.value.variantGroupId == groups[m.variantOptions[id].variantGroupId].id
    ensures r.Ok? ==> r.value.priceDelta == m.variantOptions[id].priceDelta
    ensures r.Ok? <==> id != "" && id in m.variantOptions && m.variantOptions[id].isActive && m.variantOptions[id].variantGroupId in groups
    ensures r.Ok? ==> var o := m.variantOptions[id]; var g := groups[o.variantGroupId];
      r.value == OrderItemVariant(g.id, g.name, o.id, o.name, o.priceDelta)
    ensures id == "" ==> r == Err(New(CodeInvalid, "missing id"))
    ensures id != "" && id !in m.variantOptions ==> r == Err(New(CodeNotFound, "variant option not found"))
    ensures id != "" && id in m.variantOptions && !m.variantOptions[id].isActive ==>
      r == Err(New(CodeConflict, "variant option is inactive"))
    ensures id != "" && id in m.variantOptions && m.variantOptions[id].isActive && m.variantOptions[id].variantGroupId !in groups ==>
      r == Err(New(CodeInvalid, "variant option not allowed for item"))
  {
    match GetVariantOptionById(m, id)
    case Err(e) => Err(e)
    case Ok(opt) =>
      if !opt.isActive then Err(New(CodeConflict, "variant option is inactive"))
      else if opt.variantGroupId !in groups then Err(New(CodeInvalid, "variant option not allowed for item"))
      else
        var g := groups[opt.variantGroupId];
        Ok(OrderItemVariant(g.id, g.name, opt.id, opt.name, opt.priceDelta))
  }

  /** One addon selection as the order line records it; its line total is 0
      until the order's totals are recalculated. */
  function ResolveAddon(m: Menu, groups: map<string, ItemGroup>, a: AddonSelection): (r: Result<OrderItemAddon>)
    ensures r.Ok? ==> TrimSpace(a.optionId) != "" && a.qty > 0
    ensures r.Ok? ==> a.optionId in m.addonOptions && m.addonOptions[a.optionId].isActive
    ensures r.Ok? ==> m.addonOptions[a.optionId].addonGroupId in groups
    ensures r.Ok? ==> r.value.addonGroupId == groups[m.addonOptions[a.optionId].addonGroupId].id
    ensures r.Ok? ==> r.value.qty == a.qty && r.value.unitPrice == m.addonOptions[a.optionId].price
    ensures r.Ok? <==> && TrimSpace(a.optionId) != "" && a.qty > 0 && a.optionId in m.addonOptions
                       && m.addonOptions[a.optionId].isActive && m.addonOptions[a.optionId].addonGroupId in groups
    ensures r.Ok? ==> var o := m.addonOptions[a.optionId]; var g := groups[o.addonGroupId];
      r.value == OrderItemAddon(g.id, g.name, o.id, o.name, a.qty, o.price, 0)
    ensures TrimSpace(a.optionId) == "" ==> r == Err(New(CodeInvalid, "missing addon optionId"))
    ensures TrimSpace(a.optionId) != "" && a.qty <= 0 ==> r == Err(New(CodeInvalid, "addon qty must be > 0"))
    ensures TrimSpace(a.optionId) != "" && a.qty > 0 && a.optionId !in m.addonOptions ==>
      r == Err(New(CodeNotFound, "addon option not found"))
    ensures TrimSpace(a.optionId) != "" && a.qty > 0 && a.optionId in m.addonOptions && !m.addonOptions[a.optionId].isActive ==>
      r == Err(New(CodeConflict, "addon option is inactive"))
    ensures && TrimSpace(a.optionId) != "" && a.qty > 0 && a.optionId in m.addonOptions
            && m.addonOptions[a.optionId].isActive && m.addonOptions[a.optionId].addonGroupId !in groups ==>
      r == Err(New(CodeInvalid, "addon option not allowed for item"))
  {
    if TrimSpace(a.optionId) == "" then Err(New(CodeInvalid, "missing addon optionId"))
    else if a.qty <= 0 then Err(New(CodeInvalid, "addon qty must be > 0"))
    else match GetAddonOptionById(m, a.optionId)
      case Err(e) => Err(e)
      case Ok(opt) =>
        if !opt.isActive then Err(New(CodeConflict, "addon option is inactive"))
        else if opt.addonGroupId !in groups then Err(New(CodeInvalid, "addon option not allowed for item"))
        else
          var g := groups[opt.addonGroupId];
          Ok(OrderItemAddon(g.id, g.name, opt.id, opt.name, a.qty, opt.price, 0))
  }

  /** Resolving a list stops at the first element that fails, with its
      error; otherwise it resolves every element, in order. */
  function ResolveAll<A, B>(f: A -> Result<B>, s: seq<A>): (r: Result<seq<B>>)
    ensures r.Ok? <==> forall k :: 0 <= k < |s| ==> f(s[k]).Ok?
    ensures r.Ok? ==> |r.value| == |s| && forall k :: 0 <= k < |s| ==> r.value[k] == f(s[k]).value
    ensures r.Err? ==> exists k :: 0 <= k < |s| && f(s[k]) == Err(r.error) && forall j :: 0 <= j < k ==> f(s[j]).Ok?
  {
    if s == [] then Ok([])
    else
      var n := |s| - 1;
      assert forall k :: 0 <= k < n ==> s[..n][k] == s[k];
      match ResolveAll(f, s[..n])
      case Err(e) => Err(e)
      case Ok(front) =>
        match f(s[n])
        case Err(e) => Err(e)
        case Ok(b) => Ok(front + [b])
  }

  function VariantResolver(m: Menu, groups: map<string, ItemGroup>): string -> Result<OrderItemVariant>
  {
    id => ResolveVariant(m, groups, id)
  }

  function AddonResolver(m: Menu, groups: map<string, ItemGroup>): AddonSelection -> Result<OrderItemAddon>
  {
    a => ResolveAddon(m, groups, a)
  }

  function VariantGroupId(v: OrderItemVariant): string
  {
    v.variantGroupId
  }

  function AddonGroupId(a: OrderItemAddon): string
  {
    a.addonGroupId
  }

  /** The snapshots of the chosen variant ids, or the first failure. */
  function VariantSnapshots(m: Menu, groups: map<string, ItemGroup>, ids: seq<string>): (r: Result<seq<OrderItemVariant>>)
    ensures r.Ok? <==> forall k :: 0 <= k < |ids| ==> ResolveVariant(m, groups, ids[k]).Ok?
    ensures r.Ok? ==> |r.value| == |ids| && forall k :: 0 <= k < |ids| ==> r.value[k] == ResolveVariant(m, groups, ids[k]).value
    ensures r.Err? ==> exists k :: 0 <= k < |ids| && ResolveVariant(m, groups, ids[k]) == Err(r.error)
                         && forall j :: 0 <= j < k ==> ResolveVariant(m, groups, ids[j]).Ok?
  {
    ResolveAll(VariantResolver(m, groups), ids)
  }

  /** The snapshots of the addon selections, or the first failure. */
  function AddonSnapshots(m: Menu, groups: map<string, ItemGroup>, sel: seq<AddonSelection>): (r: Result<seq<OrderItemAddon>>)
    ensures r.Ok? <==> forall k :: 0 <= k < |sel| ==> ResolveAddon(m, groups, sel[k]).Ok?
    ensures r.Ok? ==> |r.value| == |sel| && forall k :: 0 <= k < |sel| ==> r.value[k] == ResolveAddon(m, groups, sel[k]).value
    ensures r.Err? ==> exists k :: 0 <= k < |sel| && ResolveAddon(m, groups, sel[k]) == Err(r.error)
                         && forall j :: 0 <= j < k ==> ResolveAddon(m, groups, sel[j]).Ok?
  {
    ResolveAll(AddonResolver(m, groups), sel)
  }

  /** Resolving one more element that succeeds extends the result. */
  lemma ResolveAllStep<A, B>(f: A -> Result<B>, s: seq<A>, i: int, out: seq<B>)
    requires 0 <= i < |s| && ResolveAll(f, s[..i]) == Ok(out) && f(s[i]).Ok?
    ensures ResolveAll(f, s[..i + 1]) == Ok(out + [f(s[i]).value])
  {
    assert s[..i + 1][..i] == s[..i];
  }

  /** Resolving one more element that fails fails the whole list. */
  lemma ResolveAllFail<A, B>(f: A -> Result<B>, s: seq<A>, i: int)
    requires 0 <= i < |s| && ResolveAll(f, s[..i]).Ok? && f(s[i]).Err?
    ensures ResolveAll(f, s) == Err(f(s[i]).error)
  {
    assert s[..i + 1][..i] == s[..i];
    ResolveAllStops(f, s, i + 1);
  }

  /** Counting one more selection in group g. */
  lemma CountStep(count: map<string, int>, ids: seq<string>, g: string)
    requires forall k :: Lookup(count, k) == multiset(ids)[k]
    ensures forall k :: Lookup(count[g := Lookup(count, g) + 1], k) == multiset(ids + [g])[k]
  {
  }

  function VariantGroupIds(vs: seq<OrderItemVariant>): seq<string>
  {
    Map(VariantGroupId, vs)
  }

  function AddonGroupIds(as_: seq<OrderItemAddon>): seq<string>
  {
    Map(AddonGroupId, as_)
  }

  lemma VariantGroupIdsAppend(vs: seq<OrderItemVariant>, v: OrderItemVariant)
    ensures VariantGroupIds(vs + [v]) == VariantGroupIds(vs) + [v.variantGroupId]
  {
    MapAppend(VariantGroupId, vs, [v]);
  }

  lemma AddonGroupIdsAppend(as_: seq<OrderItemAddon>, a: OrderItemAddon)
    ensures AddonGroupIds(as_ + [a]) == AddonGroupIds(as_) + [a.addonGroupId]
  {
    MapAppend(AddonGroupId, as_, [a]);
  }

  /** A missing key of a count map reads as 0. */
  function Lookup(count: map<string, int>, k: string): int
  {
    if k in count then count[k] else 0
  }

  /** The variants loop: the snapshots of the distinct chosen ids, and how
      many were chosen in each group. */
  method ResolveVariants(m: Menu, groups: map<string, ItemGroup>, ids: seq<string>)
    returns (r: Result<seq<OrderItemVariant>>, count: map<string, int>)
    ensures r == VariantSnapshots(m, groups, ids)
    ensures r.Ok? ==> forall g :: Lookup(count, g) == multiset(VariantGroupIds(r.value))[g]
  {
    var f := VariantResolver(m, groups);
    var out: seq<OrderItemVariant> := [];
    count := map[];
    var i := 0;
    while i < |ids|
      invariant 0 <= i <= |ids|
      invariant ResolveAll(f, ids[..i]) == Ok(out)
      invariant forall g :: Lookup(count, g) == multiset(VariantGroupIds(out))[g]
    {
      var v := ResolveVariant(m, groups, ids[i]);
      if v.Err? {
        ResolveAllFail(f, ids, i);
        return Err(v.error), count;
      }
      ResolveAllStep(f, ids, i, out);
      VariantGroupIdsAppend(out, v.value);
      CountStep(count, VariantGroupIds(out), v.value.variantGroupId);
      out := out + [v.value];
      count := count[v.value.variantGroupId := Lookup(count, v.value.variantGroupId) + 1];
      i := i + 1;
    }
    assert ids[..i] == ids;
    r := Ok(out);
  }

  /** The addons loop: the snapshot of every selection, and how many
      selections (not units) were made in each group. */
  method ResolveAddons(m: Menu, groups: map<string, ItemGroup>, sel: seq<AddonSelection>)
    returns (r: Result<seq<OrderItemAddon>>, count: map<string, int>)
    ensures r == AddonSnapshots(m, groups, sel)
    ensures r.Ok? ==> forall g :: Lookup(count, g) == multiset(AddonGroupIds(r.value))[g]
  {
    var f := AddonResolver(m, groups);
    var out: seq<OrderItemAddon> := [];
    count := map[];
    var i := 0;
    while i < |sel|
      invariant 0 <= i <= |sel|
      invariant ResolveAll(f, sel[..i]) == Ok(out)
      invariant forall g :: Lookup(count, g) == multiset(AddonGroupIds(out))[g]
    {
      var a := ResolveAddon(m, groups, sel[i]);
      if a.Err? {
        ResolveAllFail(f, sel, i);
        return Err(a.error), count;
      }
      ResolveAllStep(f, sel, i, out);
      AddonGroupIdsAppend(out, a.value);
      CountStep(count, AddonGroupIds(out), a.value.addonGroupId);
      out := out + [a.value];
      count := count[a.value.addonGroupId := Lookup(count, a.value.addonGroupId) + 1];
      i := i + 1;
    }
    assert sel[..i] == sel;
    r := Ok(out);
  }

  /** Once a prefix fails, the whole list fails with the same error. */
  lemma {:induction false} ResolveAllStops<A, B>(f: A -> Result<B>, s: seq<A>, i: int)
    requires 0 <= i <= |s| && ResolveAll(f, s[..i]).Err?
    ensures ResolveAll(f, s) == ResolveAll(f, s[..i])
    decreases |s| - i
  {
    if i < |s| {
      assert s[..i + 1][..i] == s[..i];
      ResolveAllStops(f, s, i + 1);
    } else {
      assert s[..i] == s;
    }
  }

  // ---------- Required / MinSelect / MaxSelect ----------

  function SelectionNoun(kind: GroupKind): string
  {
    match kind
    case AddonGroups => "addon"
    case VariantGroups => "variant"
  }

  /** The fewest selections an active group accepts. */
  function MinSelections(g: ItemGroup): int
  {
    if g.required && g.minSelect < 1 then 1 else g.minSelect
  }

  /** The error of one group with c selections; inactive groups are skipped,
      and a MaxSelect of 0 means no maximum. */
  function RuleError(kind: GroupKind, g: ItemGroup, c: nat): (r: Option<Error>)
    ensures !g.isActive ==> r.None?
    ensures g.isActive ==> (r.None? <==> MinSelections(g) <= c && (g.maxSelect <= 0 || c <= g.maxSelect))
    ensures r.Some? ==> CodeOf(r.value) == CodeInvalid
  {
    if !g.isActive then None
    else if g.required && c == 0 then Some(New(CodeInvalid, "missing required " + SelectionNoun(kind) + " selection"))
    else if g.minSelect > 0 && c < g.minSelect then Some(New(CodeInvalid, SelectionNoun(kind) + " selection below minimum"))
    else if g.maxSelect > 0 && c > g.maxSelect then Some(New(CodeInvalid, SelectionNoun(kind) + " selection above maximum"))
    else None
  }

  /** Every group of the set accepts the number of selections made in it. */
  predicate GroupsSatisfied(kind: GroupKind, groups: map<string, ItemGroup>, chosen: multiset<string>)
  {
    forall k :: k in groups ==> RuleError(kind, groups[k], chosen[k]).None?
  }

  /** validateVariantGroups / validateAddonGroups: the groups are visited in
      an unspecified order (Go's map order), so when several groups are
      violated, which one's error comes back is not determined. */
  method ValidateGroups(kind: GroupKind, groups: map<string, ItemGroup>, count: map<string, int>, ghost chosen: multiset<string>)
    returns (err: Option<Error>)
    requires forall k :: Lookup(count, k) == chosen[k]
    ensures err.None? <==> GroupsSatisfied(kind, groups, chosen)
    ensures err.Some? ==> exists k :: k in groups && RuleError(kind, groups[k], chosen[k]) == err
  {
    var todo := groups.Keys;
    while todo != {}
      invariant todo <= groups.Keys
      invariant forall k :: k in groups && k !in todo ==> RuleError(kind, groups[k], chosen[k]).None?
      decreases todo
    {
      var id :| id in todo;
      var g := groups[id];
      var c := Lookup(count, id);
      if g.isActive {
        if g.required && c == 0 {
          return Some(New(CodeInvalid, "missing required " + SelectionNoun(kind) + " selection"));
        }
        if g.minSelect > 0 && c < g.minSelect {
          return Some(New(CodeInvalid, SelectionNoun(kind) + " selection below minimum"));
        }
        if g.maxSelect > 0 && c > g.maxSelect {
          return Some(New(CodeInvalid, SelectionNoun(kind) + " selection above maximum"));
        }
      }
      todo := todo - {id};
    }
    err := None;
  }
}
