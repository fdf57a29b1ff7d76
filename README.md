# saas-core ordering and payment core, in Dafny

This project models the domain core of saas-core, a Go backend for food ordering. The core has these parts:

- **Cart.** A store's customer keeps one draft order (status CREATED) per store. Its lines snapshot a catalog item, the chosen variant options and the addon options.
- **Pricing.** `RecalculateTotals` derives every line total, the subtotal and the total from integer cents.
- **Order use cases.**
  - Lines are added with selection rules and merged when the selection repeats.
  - Lines are re-quantified or removed.
  - An order is placed (CREATED → PLACED), read, or fetched or created as the draft.
- **Payment use cases.**
  - A payment opens for a PLACED order, with idempotent replay by (order, key).
  - It is confirmed (PENDING → PAID, which also moves the order PLACED → PAID) or failed (PENDING → FAILED).
- **In-memory repositories.**
  - Orders, with the single-active-draft index.
  - Payments, with the idempotency index and a per-order list.
  - Catalog items, addon options, addon groups and variant groups, with their sanity rules.
  - Users, with unique CPF and e-mail.
  - Sessions, with the expiry sweep.
- **Brazilian tax numbers.** The CPF and CNPJ value objects strip to digits, check mod-11 check digits and mask.
- **errx.** The error-code algebra every operation returns.

## How the model is built

Entities that are values become datatypes: orders, lines, snapshots, payments, users, sessions and catalog records. Each repository becomes a class that holds its Go maps as `map` fields. Its methods carry `modifies` clauses and state the whole new state.

Two predicates describe each repository's state:

- `Valid()` is what every call keeps.
- A second predicate states the index invariant: `DraftIndexExact`, `IndexesExact`, or part of `Valid` for users.

Use cases are methods over those repository objects. Each returns `Result<...>` of an `Errx.Error`. Each checks its guards in the source's order, and its `ensures` gives the result and new state for every branch. Loops the source runs are methods with invariants, proved equal to a specification function. Those loops are:

- the pricing loops;
- uniqueStrings;
- the selection loops;
- the signature loops;
- the line search;
- digitsOnly, allSameDigits, calcCpfDigit and calcCnpjDigit;
- repository listings;
- the session sweep.

The properties are then proved about those functions.

Outside inputs become parameters:

- **UUID port.** `Generate` becomes a fresh-id parameter and `Validate` becomes an `isUuid: string -> bool` parameter.
- **Clock.** `time.Now()` becomes an integer parameter, with 0 standing for Go's zero time.
- **Menu read facade.** It delegates to the catalog repositories, so it is the `Menu` value (`CatalogRepos.MenuOf` ties it to them).

Money is an unbounded `int`.

## Model

| member | source | states |
|---|---|---|
| Errx.As | internal/domain/errx/errx.go:42-56 | errors.As finds an errx error on the unwrap chain, and an errx error finds itself |
| Errx.New | internal/domain/errx/errx.go:34-36 | the error has that code (CodeOf and Is agree), no cause, its message for MsgOf when non-empty, and Error() text that reads back as (code, message) |
| Errx.Wrap | internal/domain/errx/errx.go:38-40 | same code as New, Unwrap yields the wrapped error, and the text is that of New |
| Errx.Render | internal/domain/errx/errx.go:25-30 | (*Error).Error(); RenderRoundTrip states that code and message are read back from it |
| Errx.Unwrap | internal/domain/errx/errx.go:32 | the cause; Wrap and AsSeesThroughWrappers state that the chain is followed through it |
| Errx.Is | internal/domain/errx/errx.go:42-48 | IsAgreesWithCodeOf states that Is(err, c) holds iff an errx error is on the chain with code c |
| Errx.CodeOf | internal/domain/errx/errx.go:50-56 | IsAgreesWithCodeOf states that it is the chain's errx code, or internal when there is none |
| Errx.MsgOf | internal/domain/errx/errx.go:58-64 | New and IsAgreesWithCodeOf state that it is a non-empty errx message, else "internal error" |
| Errx.IsAgreesWithCodeOf | internal/domain/errx/errx.go:42-64 | Is(err, c) holds iff an errx error is on the chain and CodeOf is c; with none, CodeOf is internal, Is is false and MsgOf is "internal error" |
| Errx.AsSeesThroughWrappers | internal/domain/errx/errx.go:42-64 | a %w wrapper reports the wrapped error's code, message and Is |
| Errx.RenderRoundTrip | internal/domain/errx/errx.go:25-30 | Error() is code + ": " + message (or the code alone) and the code and message can be read back from it |
| OrderEntity.PriceAddonLines | internal/domain/entity/order.go:79-84 | the addon loop sets each addon line total to unitPrice × qty and its running sum is the sum of those line totals |
| OrderEntity.SumVariantDeltas | internal/domain/entity/order.go:87-90 | the variant loop sums the price deltas (negative deltas included) |
| OrderEntity.RecalculateTotals | internal/domain/entity/order.go:72-99 | the nested loops produce exactly Recalculated(o) |
| OrderEntity.PricedAddonsCharge | internal/domain/entity/order.go:80-84 | after pricing, the addon line totals sum to Σ unitPrice × qty |
| OrderEntity.PricedItemsSubtotal | internal/domain/entity/order.go:75-95 | after pricing, the item line totals sum to Σ (base + addons + deltas) × qty |
| OrderEntity.RecalculatedTotalsCorrect | internal/domain/entity/order.go:72-99 | every addon line total is unitPrice × qty, every item line total is (base + Σ addon charges + Σ deltas) × qty, subtotal is the sum of the lines, total = subtotal + fees |
| OrderEntity.RecalculatedKeepsEverythingElse | internal/domain/entity/order.go:72-99 | only LineTotal, Subtotal and Total change: ids, quantities, snapshots, notes, status, fees and line order are kept |
| OrderEntity.RecalculatedEmpty | internal/domain/entity/order.go:73-98 | an order without lines has subtotal 0 and total = fees |
| OrderEntity.PricedAddonsIdempotent | internal/domain/entity/order.go:80-84 | pricing addon lines twice equals pricing them once |
| OrderEntity.RecalculateIdempotent | internal/domain/entity/order.go:72-99 | recalculating twice equals recalculating once |
| OrderEntity.TotalsExample | internal/domain/entity/order.go:72-99 | base 1000, addon 200 × 2, variant −100, qty 3 gives line total, subtotal 3900 and total 3900 + fees |
| OrderDto.ToItemDto | internal/usecase/order/get_or_create_draft.go:149-186 | a line's DTO has as many variants and addons as the line |
| OrderDto.ToOrderDto | internal/usecase/order/get_or_create_draft.go:144-201 | the DTO keeps line count, line order, ids, quantities, line totals, status and every money field |
| OrderDto.ItemRoundTrip | internal/usecase/order/get_or_create_draft.go:149-186 | reading a line DTO back gives the line |
| OrderDto.ToOrderDtoRoundTrip | internal/usecase/order/get_or_create_draft.go:144-201 | reading the order DTO back gives the order: nothing is lost |
| OrderDto.ToOrderDtoInjective | internal/usecase/order/get_or_create_draft.go:144-201 | distinct orders have distinct DTOs |
| OrderRepo.CheckOrderFields | internal/infra/db/repository/order/order_in_memory.go:40-48 | no error iff id, storeId and userId are non-empty; errors are invalid_argument |
| OrderRepo.WithDefaultStatus | internal/infra/db/repository/order/order_in_memory.go:49-51 | an empty status becomes CREATED, any other order is unchanged |
| OrderRepo.OrderRepo.constructor | internal/infra/db/repository/order/order_in_memory.go:27-32 | an empty repository satisfies both invariants |
| OrderRepo.OrderRepo.Create | internal/infra/db/repository/order/order_in_memory.go:34-80 | field errors, then conflict on an existing id, then conflict when a CREATED order's (user, store) already has a draft; on success the order is stored and a CREATED one becomes its pair's draft; the exact-index invariant is kept; nothing changes on error |
| OrderRepo.OrderRepo.Update | internal/infra/db/repository/order/order_in_memory.go:82-136 | field errors, not_found for an unknown id; leaving CREATED releases the pair's entry if it names this order, entering CREATED claims it or fails with conflict when another order holds it; the record is replaced; the exact index is kept when user and store are kept |
| OrderRepo.OrderRepo.GetByID | internal/infra/db/repository/order/order_in_memory.go:138-154 | "missing id", "order not found", else the stored order with that id |
| OrderRepo.OrderRepo.GetActiveDraftByUserIDAndStoreID | internal/infra/db/repository/order/order_in_memory.go:156-182 | an order only if indexed and still CREATED (and of that pair under the invariant), else the listed errors |
| OrderRepo.SingleActiveDraft | internal/infra/db/repository/order/order_in_memory.go:62-69 | under the index invariant at most one CREATED order exists per (user, store) |
| OrderRepo.ActiveDraftLookupComplete | internal/infra/db/repository/order/order_in_memory.go:156-182 | the draft lookup succeeds iff a CREATED order of that pair is stored, and then returns it |
| Cart.IndexOfLine | internal/usecase/order/remove_item.go:62-68 | −1 iff no line has the id, else the first line with it |
| Cart.FindLine | internal/usecase/order/remove_item.go:62-68 | the search loop returns IndexOfLine |
| Cart.WithLineQty | internal/usecase/order/update_item_qty.go:69-75 | only that line's quantity is replaced; every other line is unchanged |
| Cart.RemoveLineAt | internal/usecase/order/remove_item.go:73 | one line fewer; lines before keep their index, lines after shift down by one |
| Cart.RemoveLineAtMultiset | internal/usecase/order/remove_item.go:73 | the splice removes exactly one copy of that line |
| Cart.RemoveLineDropsOnlyThatId | internal/usecase/order/remove_item.go:62-73 | with distinct line ids, the id is gone and every other line is still there |
| UpdateItemQty.InputError | internal/usecase/order/update_item_qty.go:30-55 | no error iff ids non-empty and valid UUIDs and qty > 0; unauthorized exactly for a missing user after a present order id; all others invalid_argument |
| UpdateItemQty.OrderError | internal/usecase/order/update_item_qty.go:61-78 | no error iff owner, CREATED and the line exists; forbidden first |
| UpdateItemQty.Execute | internal/usecase/order/update_item_qty.go:29-88 | each guard's error in order with nothing written; on success the order with the line's qty replaced and totals recalculated is stored and returned |
| UpdateItemQty.EditedChangesOnlyThatQty | internal/usecase/order/update_item_qty.go:68-81 | the saved order has the same lines in the same order; the edited line keeps its id, item, name, base price, variant and addon snapshots and note and takes the new qty; every other line is unchanged up to totals; subtotal recomputed |
| RemoveItem.InputError | internal/usecase/order/remove_item.go:29-49 | no error iff ids non-empty and valid UUIDs; unauthorized exactly for a missing user after a present order id |
| RemoveItem.OrderError | internal/usecase/order/remove_item.go:55-71 | no error iff owner, CREATED and the line exists; forbidden first |
| RemoveItem.Execute | internal/usecase/order/remove_item.go:28-83 | each guard's error in order with nothing written; on success the first line with the id is removed, totals recalculated and the order stored |
| RemoveItem.EditedDropsThatLine | internal/usecase/order/remove_item.go:62-76 | one line fewer, the rest in relative order, exactly that line removed (multiset), subtotal of the remaining lines |
| PlaceOrder.InputError | internal/usecase/order/place.go:28-41 | no error iff ids non-empty and valid UUIDs; unauthorized exactly for a missing user |
| PlaceOrder.OrderError | internal/usecase/order/place.go:48-58 | no error iff owner, CREATED and non-empty; forbidden, then conflict "order cannot be placed", then "order has no items" |
| PlaceOrder.Execute | internal/usecase/order/place.go:27-71 | each guard's error with nothing written; on success the order is recalculated, PLACED and stored, and its draft slot is released |
| PlaceOrder.PlacedIsPricedAndPlaced | internal/usecase/order/place.go:60-63 | the placed order is PLACED, keeps its lines up to totals, and carries subtotal and total of its lines and fees |
| GetOrder.InputError | internal/usecase/order/get_order.go:26-38 | no error iff ids non-empty and valid UUIDs; unauthorized exactly for a missing user |
| GetOrder.Execute | internal/usecase/order/get_order.go:25-50 | guards, then not_found, then forbidden for a non-owner; success iff owner, and then the stored order in full; it reads only |
| GetOrCreateDraft.NewDraft | internal/usecase/order/get_or_create_draft.go:113-128 | a new draft has the generated id and the input's menu, is CREATED and empty, has subtotal, fees and total 0, and is keyed by the input's (user, store) |
| GetOrCreateDraft.Execute | internal/usecase/order/get_or_create_draft.go:95-142 | missing ids rejected; an existing draft returned with created = false and nothing written; else a new draft created and returned with created = true; afterwards the result is the pair's active draft |
| AddItem.InputError | internal/usecase/order/add_item.go:47-55 | no error iff orderId and itemId non-empty and qty > 0, all invalid_argument |
| AddItem.SelectFor | internal/usecase/order/add_item.go:65-170 | the catalog lookups and selection loops equal Select, with per-group selection counts |
| AddItem.Signature | internal/usecase/order/add_item.go:277-291 | the merge key; SignatureIgnoresOrder and SignatureIgnoresPermutation state that it depends only on the item, the multisets of selections and the trimmed note |
| AddItem.LineSignature | internal/usecase/order/add_item.go:293-295 | an existing line's key; RepeatedSelectionMerges states that a repeated selection matches it |
| AddItem.SignatureIgnoresOrder | internal/usecase/order/add_item.go:277-291 | equal multisets of variant ids and addon parts and equal trimmed notes give equal signatures |
| AddItem.SignatureIgnoresPermutation | internal/usecase/order/add_item.go:277-291 | reordering the variant or addon snapshots does not change the signature |
| AddItem.BuildSignature | internal/usecase/order/add_item.go:277-291 | the collecting loops, sorts and joins equal Signature |
| AddItem.CollectVariantIds | internal/usecase/order/add_item.go:278-281 | the loop collects every variant option id, in order |
| AddItem.CollectAddonParts | internal/usecase/order/add_item.go:284-287 | the loop collects "optionId:qty" for every addon, in order |
| AddItem.FirstWithKey | internal/usecase/order/add_item.go:183-184 | −1 iff no element has the key, else the first one with it |
| AddItem.FindFirstWithKey | internal/usecase/order/add_item.go:183-184 | the merge search loop returns FirstWithKey |
| AddItem.AddToLines | internal/usecase/order/add_item.go:180-209 | merge-or-append then recalculation yields Saved |
| AddItem.CheckRules | internal/usecase/order/add_item.go:172-178 | no error iff every active variant and addon group accepts its count; an error is some violated group's |
| AddItem.Prepare | internal/usecase/order/add_item.go:65-209 | the lookup error, or a rule violation, or the saved order |
| AddItem.Execute | internal/usecase/order/add_item.go:46-215 | input errors, order lookup error, conflict when not CREATED, then selection and rule errors, with nothing written; success iff editable and valid, storing Saved |
| AddItem.SavedMergesOrAppends | internal/usecase/order/add_item.go:180-214 | with a matching signature only that line's qty grows by the input qty, and it keeps its id, item, name, base price, variant and addon snapshots and note; otherwise exactly one new line with a fresh id, base-price snapshot and untrimmed note is appended; totals recalculated |
| AddItem.MergeKeepsLines | internal/usecase/order/add_item.go:183-193 | after the quantity merge and recalculation, only that line's qty differs from the old lines, up to the money fields, and the totals are those of the merged lines |
| AddItem.AppendKeepsLines | internal/usecase/order/add_item.go:196-209 | after appending a line and recalculating, the old lines are kept up to the money fields, the new line is last, and the totals are those of all the lines |
| AddItem.RepeatedSelectionMerges | internal/usecase/order/add_item.go:180-193 | adding the same item with the same selections in any order merges: the line count is unchanged and a line's qty grows |
| AddItem.SelectErrors | internal/usecase/order/add_item.go:65-170 | the item lookup's error, then conflict "item is inactive", then the first failing variant id's error, then the first failing addon's error; with the item and its groups found, Select fails iff some option fails to resolve |
| AddItem.SelectedSnapshots | internal/usecase/order/add_item.go:96-170 | a successful selection has one variant snapshot per distinct trimmed id and one addon snapshot per addon entry; each records the option's id, name and price and its group's id and name, from an active option of an active group of the item |
| AddItemRules.Dedup | internal/usecase/order/add_item.go:259-274 | non-empty values, each once, all from the input |
| AddItemRules.DedupMembers | internal/usecase/order/add_item.go:259-274 | a value is kept iff it is non-empty and occurs in the input |
| AddItemRules.UniqueStringsSpec | internal/usecase/order/add_item.go:259-274 | uniqueStrings returns distinct, trimmed, non-blank ids, exactly the non-blank trimmed inputs |
| AddItemRules.Unique | internal/usecase/order/add_item.go:259-274 | the loop with its seen set equals UniqueStrings |
| AddItemRules.ActiveGroups | internal/usecase/order/add_item.go:78-94 | the set holds exactly the active groups of the listing, keyed by id |
| AddItemRules.GroupSet | internal/usecase/order/add_item.go:78-94 | the loop builds ActiveGroups |
| AddItemRules.ResolveVariant | internal/usecase/order/add_item.go:107-127 | success iff the id is non-empty, known, active and its group is one of the item's active groups; the snapshot is (group id, group name, option id, option name, price delta); otherwise the lookup's invalid_argument/not_found, conflict "variant option is inactive", or invalid_argument "variant option not allowed for item" |
| AddItemRules.ResolveAddon | internal/usecase/order/add_item.go:139-166 | success iff the trimmed id is non-blank, qty > 0, the option is known and active and its group is allowed; the snapshot is (group id, group name, option id, option name, qty, price, line total 0); each failing check gives its own error in that order: missing optionId, qty, not_found, conflict "addon option is inactive", "addon option not allowed for item" |
| AddItemRules.ResolveAll | internal/usecase/order/add_item.go:102-170 | all succeed or the first failure's error is returned |
| AddItemRules.VariantSnapshots | internal/usecase/order/add_item.go:102-130 | one snapshot per id in order, or the error of the first id that fails to resolve |
| AddItemRules.AddonSnapshots | internal/usecase/order/add_item.go:138-170 | one snapshot per selection in order, or the error of the first selection that fails to resolve |
| AddItemRules.ResolveVariants | internal/usecase/order/add_item.go:102-130 | the variants loop equals VariantSnapshots and counts selections per group |
| AddItemRules.ResolveAddons | internal/usecase/order/add_item.go:138-170 | the addons loop equals AddonSnapshots and counts one per entry regardless of qty |
| AddItemRules.RuleError | internal/usecase/order/add_item.go:217-257 | inactive groups pass; an active one fails iff (required and 0) or below min or (max > 0 and above max) |
| AddItemRules.ValidateGroups | internal/usecase/order/add_item.go:217-257 | no error iff every group is satisfied; an error is that of some violating group (map order unspecified) |
| Text.TrimLeft | internal/usecase/order/add_item.go:263 | the suffix after leading white space |
| Text.TrimRight | internal/usecase/order/add_item.go:263 | the prefix before trailing white space |
| Text.TrimSpaceTrims | internal/usecase/order/add_item.go:263 | strings.TrimSpace yields a trimmed string, is idempotent and keeps trimmed strings |
| Text.TrimSpaceEmpty | internal/usecase/order/add_item.go:103 | a string trims to "" iff it is all white space |
| Text.SortStrings | internal/usecase/order/add_item.go:282 | sort.Strings yields a sorted permutation |
| Text.SortedUnique | internal/usecase/order/add_item.go:282-288 | two sorted permutations of the same strings are equal |
| Text.SortStringsPermutationInvariant | internal/usecase/order/add_item.go:282-288 | sorting does not depend on the input order |
| Text.Join | internal/usecase/order/add_item.go:290 | strings.Join of none is "", of one is that string, and with JoinAppend of more the separator between each pair of consecutive parts |
| Text.JoinAppend | internal/usecase/order/add_item.go:290 | joining one more part appends the separator and then that part, for any non-empty list |
| Text.TrimSpace | internal/usecase/order/add_item.go:263 | strings.TrimSpace; TrimSpaceTrims and TrimSpaceEmpty state that its result is trimmed, idempotent, and empty exactly for all-white-space input |
| Text.MapPermutation | internal/usecase/order/add_item.go:278-286 | rearranging snapshots rearranges their ids and parts |
| Text.NatToString | internal/usecase/order/add_item.go:286 | decimal text is non-empty digits |
| Text.FormatIntRoundTrip | internal/usecase/order/add_item.go:286 | strconv.FormatInt text reads back as the same number |
| Repository.GetById | internal/infra/db/repository/category_item/category_item_in_memory.go:66-81 | "missing id", not found, or the stored record |
| Repository.Collect | internal/infra/db/repository/category_item/category_item_in_memory.go:90-97 | listing skips ids without a record, so at most as long as the list, and as long when all exist |
| Repository.CollectFromIndex | internal/infra/db/repository/category_item/category_item_in_memory.go:90-97 | each listed record is stored under a listed id |
| Repository.CollectContains | internal/infra/db/repository/category_item/category_item_in_memory.go:90-97 | each listed id with a record contributes it |
| Repository.CollectAfterInsert | internal/infra/db/repository/category_item/category_item_in_memory.go:59-61 | after an insert and append, the listing is the old one plus the new record: insertion order |
| Repository.IndexedByInsert | internal/infra/db/repository/category_item/category_item_in_memory.go:59-61 | inserting a new record and appending its id keeps the index exact |
| Repository.CollectListed | internal/infra/db/repository/category_item/category_item_in_memory.go:90-97 | the listing loop equals Collect |
| CatalogRepos.CheckCategoryItem | internal/infra/db/repository/category_item/category_item_in_memory.go:29-43 | no error iff id, categoryId, name non-empty and basePrice ≥ 0 |
| CatalogRepos.CategoryItemRepo.constructor | internal/infra/db/repository/category_item/category_item_in_memory.go:18-23 | empty and valid |
| CatalogRepos.CategoryItemRepo.Create | internal/infra/db/repository/category_item/category_item_in_memory.go:26-64 | field errors, conflict on a duplicate id with no change, else stored and appended to its category |
| CatalogRepos.CategoryItemRepo.GetByID | internal/infra/db/repository/category_item/category_item_in_memory.go:66-81 | a found item has that id and a non-negative base price |
| CatalogRepos.CategoryItemRepo.ListByCategoryID | internal/infra/db/repository/category_item/category_item_in_memory.go:83-101 | "missing categoryId", else the category's items in insertion order, all of it and priced ≥ 0 |
| CatalogRepos.CheckAddonOption | internal/infra/db/repository/addon_option/addon_option_in_memory.go:29-43 | no error iff id, groupId, name non-empty and price ≥ 0 |
| CatalogRepos.AddonOptionRepo.constructor | internal/infra/db/repository/addon_option/addon_option_in_memory.go:19-24 | empty and valid |
| CatalogRepos.AddonOptionRepo.Create | internal/infra/db/repository/addon_option/addon_option_in_memory.go:26-64 | field errors, conflict on a duplicate id with no change, else stored and appended to its group |
| CatalogRepos.AddonOptionRepo.GetByID | internal/infra/db/repository/addon_option/addon_option_in_memory.go:66-81 | a found option has that id and a non-negative price |
| CatalogRepos.AddonOptionRepo.ListByAddonGroupID | internal/infra/db/repository/addon_option/addon_option_in_memory.go:83-101 | "missing groupId", else the group's options in insertion order |
| CatalogRepos.CheckGroup | internal/infra/db/repository/item_addon_group/item_addon_group_in_memory.go:29-43 | no error iff fields non-empty and min ≥ 0, max ≥ 0, (max = 0 or min ≤ max); the variant-group file is identical |
| CatalogRepos.ItemGroupRepo.constructor | internal/infra/db/repository/item_addon_group/item_addon_group_in_memory.go:19-24 | empty and valid, of the given kind |
| CatalogRepos.ItemGroupRepo.Create | internal/infra/db/repository/item_addon_group/item_addon_group_in_memory.go:26-64 | field and bound errors, conflict on a duplicate id with no change, else stored and appended to its item (addon and variant groups alike) |
| CatalogRepos.ItemGroupRepo.GetByID | internal/infra/db/repository/item_variant_group/item_variant_group_in_memory.go:66-81 | a found group has that id and sane bounds |
| CatalogRepos.ItemGroupRepo.ListByCategoryItemID | internal/infra/db/repository/item_variant_group/item_variant_group_in_memory.go:83-101 | the item's groups, as many as listed |
| CatalogRepos.ItemGroupRepo.ListByCategoryItem | internal/infra/db/repository/item_addon_group/item_addon_group_in_memory.go:83-101 | the loop equals ListByCategoryItemID; every group belongs to the item and has sane bounds |
| CatalogRepos.MenuOf | internal/usecase/order/add_item.go:65-157 | the catalog AddItem reads answers every lookup as the repositories do |
| CatalogRepos.ListedGroupsBelongToItem | internal/infra/db/repository/item_addon_group/item_addon_group_in_memory.go:83-101 | every listed group belongs to the item and has sane bounds |
| Catalog.ListGroups | internal/infra/db/repository/item_addon_group/item_addon_group_in_memory.go:86-88 | an error iff the item id is empty |
| PaymentDto.ToPaymentDto | internal/usecase/payment/create.go:134-150 | ids, amount copied and the status as its string |
| PaymentDto.ToPaymentDtoRoundTrip | internal/usecase/payment/create.go:134-150 | reading the DTO back gives the payment |
| PaymentDto.ToPaymentDtoInjective | internal/usecase/payment/create.go:134-150 | distinct payments have distinct DTOs |
| PaymentRepo.CheckPaymentFields | internal/infra/db/repository/payment/payment_in_memory.go:40-54 | no error iff id, orderId, userId, storeId non-empty and amount ≥ 0 |
| PaymentRepo.WithDefaults | internal/infra/db/repository/payment/payment_in_memory.go:55-60 | empty currency becomes BRL, empty status CREATED, all else kept |
| PaymentRepo.PaymentRepo.CreateError | internal/infra/db/repository/payment/payment_in_memory.go:40-75 | field errors first; then no error iff the id is new and the (order, key) slot is free; else conflict |
| PaymentRepo.PaymentRepo.constructor | internal/infra/db/repository/payment/payment_in_memory.go:26-32 | empty, valid and exactly indexed |
| PaymentRepo.PaymentRepo.Create | internal/infra/db/repository/payment/payment_in_memory.go:34-89 | CreateError's error with nothing changed; else stored with defaults, appended to its order's list, indexed by a non-empty key, findable by id and by key; the index invariant is kept |
| PaymentRepo.PaymentRepo.Update | internal/infra/db/repository/payment/payment_in_memory.go:91-119 | "missing id", "payment not found", else the record replaced; the order and key indexes are never touched |
| PaymentRepo.PaymentRepo.GetByID | internal/infra/db/repository/payment/payment_in_memory.go:121-135 | a found payment has that id |
| PaymentRepo.PaymentRepo.GetByOrderAndKey | internal/infra/db/repository/payment/payment_in_memory.go:137-158 | invalid_argument for an empty order or key, not_found otherwise, success iff indexed and stored, and then of that order and key |
| PaymentRepo.PaymentRepo.ListByOrderID | internal/infra/db/repository/payment/payment_in_memory.go:160-177 | "missing orderId", else the order's payments in creation order, all of that order |
| PaymentRepo.OnePaymentPerKey | internal/infra/db/repository/payment/payment_in_memory.go:71-77 | at most one stored payment per (order, non-empty key) |
| PaymentRepo.KeyLookupComplete | internal/infra/db/repository/payment/payment_in_memory.go:137-158 | the key lookup succeeds iff a payment with that order and key is stored, and returns it |
| PaymentRepo.ListingComplete | internal/infra/db/repository/payment/payment_in_memory.go:84-86 | every stored payment appears in its order's listing |
| CreatePayment.InputError | internal/usecase/payment/create.go:60-72 | no error iff ids non-empty and valid UUIDs; unauthorized exactly for a missing user |
| CreatePayment.OrderError | internal/usecase/payment/create.go:82-90 | no error iff owner, PLACED and non-empty; forbidden, then conflict, then invalid |
| CreatePayment.MethodOrDefault | internal/usecase/payment/create.go:74-76 | an empty method becomes MOCK, any other is kept |
| CreatePayment.Execute | internal/usecase/payment/create.go:59-132 | guard errors with nothing written; a replay returns the stored payment unchanged; else a PENDING, MOCK, BRL payment of the recalculated order total is created or Create's error returned; a keyed success is then what the key lookup finds |
| CreatePayment.RepeatWithSameKey | internal/usecase/payment/create.go:92-101 | repeating a successful keyed request returns the same payment and stores at most that one |
| SettlePayment.InputError | internal/usecase/payment/confirm.go:41-53 | no error iff ids non-empty and valid UUIDs; unauthorized exactly for a missing user (fail.go words the missing id differently) |
| SettlePayment.LookupError | internal/usecase/payment/confirm.go:55-61 | no error iff the payment is stored and belongs to the caller |
| SettlePayment.Confirmed | internal/usecase/payment/confirm.go:69-72 | status PAID, paidAt = now, order, key, id and amount kept |
| SettlePayment.OrderAfterConfirm | internal/usecase/payment/confirm.go:83-89 | a PLACED order becomes PAID, any other is untouched |
| SettlePayment.Confirm | internal/usecase/payment/confirm.go:40-92 | guard errors with nothing written; PAID is a no-op; other non-PENDING conflict; PENDING becomes PAID, then the order lookup's error is returned with the payment left PAID, or the PLACED order moves to PAID; every status only steps forward |
| SettlePayment.Fail | internal/usecase/payment/fail.go:32-65 | guard errors; conflict unless PENDING; success iff PENDING and owned, storing it FAILED; the order is never touched |
| UserRepo.CheckUserFields | internal/infra/db/repository/user/user_in_memory.go:38-46 | no error iff id, cpf, email non-empty |
| UserRepo.WithDefaults | internal/infra/db/repository/user/user_in_memory.go:65-70 | empty status becomes active, empty role costumer, all else kept |
| UserRepo.LookupVia | internal/infra/db/repository/user/user_in_memory.go:102-122 | missing-key error, else ErrUserNotFound unless the index names a stored user, which is returned |
| UserRepo.UserRepo.CreateError | internal/infra/db/repository/user/user_in_memory.go:38-63 | field errors first; then no error iff id, CPF and e-mail are all free; else ErrUserAlreadyExists |
| UserRepo.UserRepo.constructor | internal/infra/db/repository/user/user_in_memory.go:24-30 | empty and valid |
| UserRepo.UserRepo.Create | internal/infra/db/repository/user/user_in_memory.go:32-83 | CreateError's error with nothing changed; else stored with defaults and both indexes map to the new id, so GetByCpf and GetByMail find it; uniqueness kept |
| UserRepo.UserRepo.GetByID | internal/infra/db/repository/user/user_in_memory.go:85-100 | "missing id", ErrUserNotFound, else the stored user |
| UserRepo.UserRepo.GetByCpf | internal/infra/db/repository/user/user_in_memory.go:102-122 | a found user has that CPF |
| UserRepo.UserRepo.GetByMail | internal/infra/db/repository/user/user_in_memory.go:124-144 | a found user has that e-mail |
| UserRepo.UsersUnique | internal/infra/db/repository/user/user_in_memory.go:53-63 | no two stored users share a CPF or an e-mail |
| UserRepo.LookupsComplete | internal/infra/db/repository/user/user_in_memory.go:102-144 | every stored user is found by its CPF and by its e-mail |
| SessionRepo.CheckSession | internal/infra/db/repository/session/session_in_memory.go:29-37 | no error iff id, userId non-empty and expiresAt non-zero, all invalid_argument |
| SessionRepo.Stamped | internal/infra/db/repository/session/session_in_memory.go:44-46 | a zero createdAt becomes the clock, else unchanged |
| SessionRepo.Unexpired | internal/infra/db/repository/session/session_in_memory.go:80-88 | exactly the sessions expiring after now, unchanged |
| SessionRepo.SessionRepo.constructor | internal/infra/db/repository/session/session_in_memory.go:17-21 | empty and valid |
| SessionRepo.SessionRepo.Save | internal/infra/db/repository/session/session_in_memory.go:23-51 | field errors with no change; else an upsert of the stamped session |
| SessionRepo.SessionRepo.GetByID | internal/infra/db/repository/session/session_in_memory.go:53-69 | invalid_argument for "", not_found for unknown, else the stored session |
| SessionRepo.SessionRepo.DeleteExpired | internal/infra/db/repository/session/session_in_memory.go:71-90 | the sweep (at now, or the clock for zero time) leaves exactly the sessions expiring after it |
| SessionRepo.UnexpiredIdempotent | internal/infra/db/repository/session/session_in_memory.go:80-88 | sweeping twice at one time equals sweeping once |
| SessionRepo.UnexpiredCompose | internal/infra/db/repository/session/session_in_memory.go:80-88 | two sweeps equal one sweep at the later time |
| SessionRepo.SaveThenSweep | internal/infra/db/repository/session/session_in_memory.go:48-88 | a saved session survives a sweep iff it expires after the sweep time |
| ValueObject.DigitsOnly | internal/domain/value_object/cnpj.go:60-68 | only digits, no longer than the input |
| ValueObject.StripToDigits | internal/domain/value_object/cnpj.go:60-68 | the digitsOnly loop equals DigitsOnly |
| ValueObject.DigitsOnlyOfDigits | internal/domain/value_object/cnpj.go:60-68 | a digit string is kept whole, so digitsOnly is idempotent |
| ValueObject.DigitsOnlyMembers | internal/domain/value_object/cnpj.go:60-68 | a character survives iff it is a digit of the input |
| ValueObject.AllSameDigits | internal/domain/value_object/cnpj.go:70-81 | the loop decides AllSame: non-empty and one repeated character (empty is false) |
| ValueObject.GoRem | internal/domain/value_object/cpf.go:62 | Go's truncating %, equal to Dafny's for non-negative sums |
| ValueObject.Mod11Digit | internal/domain/value_object/cnpj.go:88-92 | always 0..9; 0 when the remainder is below 2, else the digit completing the sum to a multiple of 11 |
| ValueObject.Descending | internal/domain/value_object/cpf.go:57-61 | the weights start, start−1, … |
| ValueObject.CpfDigit | internal/domain/value_object/cpf.go:55-67 | a CPF check digit is 0..9 |
| ValueObject.CalcCpfDigit | internal/domain/value_object/cpf.go:55-67 | the loop with the count-down weight equals CpfDigit |
| ValueObject.CalcCnpjDigit | internal/domain/value_object/cnpj.go:83-93 | the loop equals the mod-11 digit of the weighted sum |
| ValueObject.NewCpf | internal/domain/value_object/cpf.go:17-20 | keeps only the digits, in order |
| ValueObject.WithCpfCheckDigits | internal/domain/value_object/cpf.go:30-34 | a 9-digit base followed by its two check digits |
| ValueObject.CpfError | internal/domain/value_object/cpf.go:22-41 | length error iff not 11 digits; all-same gives ErrCpfInvalid |
| ValueObject.ValidateCpf | internal/domain/value_object/cpf.go:22-41 | Validate reports CpfError |
| ValueObject.CpfValidIffCompleted | internal/domain/value_object/cpf.go:22-41 | valid iff 11 digits, not all the same, and the last two are the check digits of the first nine |
| ValueObject.CpfMasked | internal/domain/value_object/cpf.go:43-49 | length error iff not 11 digits; else 14 characters with '.', '.', '-' in place |
| ValueObject.CpfMaskedRoundTrip | internal/domain/value_object/cpf.go:43-49 | stripping the mask gives the digits back |
| ValueObject.NewCnpj | internal/domain/value_object/cnpj.go:18-21 | keeps only the digits, in order |
| ValueObject.WithCnpjCheckDigits | internal/domain/value_object/cnpj.go:32-35 | a 12-digit base followed by its two check digits |
| ValueObject.CnpjError | internal/domain/value_object/cnpj.go:24-42 | length error iff not 14 digits; all-same gives ErrCnpjInvalid |
| ValueObject.ValidateCnpj | internal/domain/value_object/cnpj.go:24-42 | Validate reports CnpjError |
| ValueObject.CnpjValidIffCompleted | internal/domain/value_object/cnpj.go:24-42 | valid iff 14 digits, not all the same, and the last two are the check digits of the first twelve |
| ValueObject.CnpjMasked | internal/domain/value_object/cnpj.go:45-51 | length error iff not 14 digits; else 18 characters with '.', '.', '/', '-' in place |
| ValueObject.CnpjMaskedRoundTrip | internal/domain/value_object/cnpj.go:45-51 | stripping the mask gives the digits back |
| ValueObject.CpfCheckDigitsExample | internal/domain/value_object/cpf.go:55-67 | "529982247" gives 2 and "5299822472" gives 5 |
| ValueObject.CpfValidateExample | internal/domain/value_object/cpf.go:22-41 | the CPF 52998224725 is valid and 52998224726 is ErrCpfInvalid |
| ValueObject.CnpjCheckDigitsExample | internal/domain/value_object/cnpj.go:83-93 | 042520110001 has check digits 1 and 0 |
| ValueObject.CnpjValidateExample | internal/domain/value_object/cnpj.go:24-42 | the CNPJ 04252011000110 is valid and 04252011000111 is ErrCnpjInvalid |

## Left out

- **Concurrency.** `sync.RWMutex` locking and concurrent requests are not modelled. Each repository call is one atomic step and calls run one after another.
  - Under that model, some error branches of the use cases cannot be reached. Each one is an `assert false` in the member named:
    - the conflict re-fetch succeeding: `GetOrCreateDraft.Execute` and `CreatePayment.Execute`;
    - a key lookup failing with other than not_found: `GetOrCreateDraft.Execute` and `CreatePayment.Execute`;
    - the variant-group listing failing after the addon-group listing succeeded: `AddItem.SelectFor`;
    - the order repository's Update failing: `AddItem.Execute`, `UpdateItemQty.Execute`, `RemoveItem.Execute`, `PlaceOrder.Execute` and `SettlePayment.Confirm`;
    - the payment repository's Update failing: `SettlePayment.Confirm` and `SettlePayment.Fail`.
  - The model proves these branches unreachable rather than modelling a race.
- **nil pointers.** The `nil` checks ("missing order", "missing payment", "nil user", "missing item" and so on), nil map entries and nil sessions deleted by the sweep are not modelled. Records are Dafny values and cannot be nil.
- **Copying.** Deep copies (`cloneOrder`, `clonePayment`, `cloneUser`, …) are implicit, because records are values. Aliasing between the caller and the repository is therefore not modelled.
- **Timestamps.** `CreatedAt` and `UpdatedAt` of orders, payments, users and catalog records are not modelled. Only session times and the payment's `PaidAt` are kept, as integer clock readings.
- **Integer width.** Money and quantities are unbounded integers. Go's `int64` wrap-around is not modelled in any arithmetic: not in `UnitPrice * Qty`, not in the sums, and not in the quantity merge of AddItem (`Qty += in.Qty`, which `AddItem.Merged` does as an unbounded addition).
- **Digits.** `digitsOnly` keeps ASCII `'0'..'9'` only. Go's `unicode.IsDigit` also accepts other Unicode decimal digits.
- **String comparison.** `sort.Strings` compares strings by code point. That agrees with Go's byte order on the UTF-8 text the signatures are built from.
- **Getters.** `Cpf.Digits` and `Cnpj.Digits` return the stored digits; in the model they are the datatype field `value`.
- **Enums.** Go's string enums are modelled as datatypes with an explicit empty value (`OrderStatusEmpty`, `PaymentStatusEmpty`). A status string outside the declared constants cannot be represented. Payment method, user status and user role stay strings.
- **Ports and wrappers.** The UUID port, JWT, bcrypt password hashing, the login use case, the HTTP layer, `cmd/api/main.go`, the seed data and the test kit are not modelled. UUIDs appear only as the fresh-id and `isUuid` parameters.
- **Other repositories and use cases.** The menu-read facade, the other catalog repositories (`addon_group`, `menu_category`, `store_menu`, `variant_option`, `store`) and the catalog and account CRUD use cases are not modelled. The facade's delegation is captured by `CatalogRepos.MenuOf`.
- **Fail's reason.** `Reason` in the Fail use case's input is never stored by the source, so the model has no such field.
- **AddItemRules.ValidateGroups:** which violated group's message is reported depends on Go's map iteration order. The model states only that it is the error of some violated group.
- **GetOrCreateDraft.Execute:** get_or_create_draft.go (lines 104 and 133) calls `GetActiveDraftByUserStore`, which the order repository port does not declare (internal/port/repository/order.go:15 has only `GetActiveDraftByUserIDAndStoreID`). The model reads the call as the port's `GetActiveDraftByUserIDAndStoreID`.
- **OrderRepo.OrderRepo.Update:** the exact draft index is proved to survive only updates that keep the order's user and store. Every caller does so.
- **PaymentRepo.PaymentRepo.Update:** the idempotency index is proved to stay exact only when the update keeps the payment's order and key. Both callers (Confirm and Fail) do so.
- **CatalogRepos.ItemGroupRepo:** one class models both the addon-group and the variant-group repository, which differ only in error wording.
