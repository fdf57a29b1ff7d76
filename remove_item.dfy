/** RemoveItemUsecase.Execute (internal/usecase/order/remove_item.go): takes
    one cart line out of a CREATED order the caller owns. */
module RemoveItem {
  import opened Errx
  import opened OrderEntity
  import opened OrderRepo
  import opened OrderDto
  import opened Cart

  datatype RemoveItemInput = RemoveItemInput(orderId: string, userId: string, itemId: string)

  /** The checks on the input alone, in the order they apply; `isUuid` is the
      UUID port's Validate. */
  function InputError(input: RemoveItemInput, isUuid: string -> bool): (r: Option<Error>)
    ensures r.None? <==> input.orderId != "" && input.userId != "" && input.itemId != ""
                         && isUuid(input.itemId) && isUuid(input.orderId) && isUuid(input.userId)
    ensures r.Some? ==> (CodeOf(r.value) == CodeUnauthorized <==> input.orderId != "" && input.userId == "")
    ensures r.Some? && CodeOf(r.value) != CodeUnauthorized ==> CodeOf(r.value) == CodeInvalid
  {
    if input.orderId == "" then Some(New(CodeInvalid, "missing orderId"))
    else if input.userId == "" then Some(New(CodeUnauthorized, "missing user"))
    else if input.itemId == "" then Some(New(CodeInvalid, "missing itemId"))
    else if !isUuid(input.itemId) then Some(New(CodeInvalid, "invalid item id"))
    else if !isUuid(input.orderId) then Some(New(CodeInvalid, "invalid order id"))
    else if !isUuid(input.userId) then Some(New(CodeInvalid, "invalid user id"))
    else None
  }

  /** The checks against the stored order, in the order they apply. */
  function OrderError(o: Order, input: RemoveItemInput): (r: Option<Error>)
    ensures r.None? <==> o.userId == input.userId && o.status == OrderCreated && IndexOfLine(o.items, input.itemId) >= 0
    ensures o.userId != input.userId ==> r == Some(New(CodeForbidden, "order does not belong to user"))
  {
    if o.userId != input.userId then Some(New(CodeForbidden, "order does not belong to user"))
    else if o.status != OrderCreated then Some(New(CodeConflict, "order is not editable"))
    else if IndexOfLine(o.items, input.itemId) == -1 then Some(New(CodeNotFound, "order item not found"))
    else None
  }

  /** The order as it is saved: the first line with the id spliced out, then
      totals recalculated. */
  function Edited(o: Order, input: RemoveItemInput): Order
    requires IndexOfLine(o.items, input.itemId) >= 0
  {
    Recalculated(o.(items := RemoveLineAt(o.items, IndexOfLine(o.items, input.itemId))))
  }

  method Execute(repo: OrderRepo, input: RemoveItemInput, isUuid: string -> bool) returns (r: Result<OrderDto>)
    requires repo.Valid()
    modifies repo
    ensures repo.Valid()
    ensures old(repo.DraftIndexExact()) ==> repo.DraftIndexExact()
    ensures InputError(input, isUuid).Some? ==> r == Err(InputError(input, isUuid).value)
    ensures InputError(input, isUuid).None? && old(repo.GetByID(input.orderId)).Err? ==> r == Err(old(repo.GetByID(input.orderId)).error)
    ensures InputError(input, isUuid).None? && old(repo.GetByID(input.orderId)).Ok? && OrderError(old(repo.byId[input.orderId]), input).Some? ==>
              r == Err(OrderError(old(repo.byId[input.orderId]), input).value)
    ensures r.Err? ==> repo.byId == old(repo.byId) && repo.activeDraft == old(repo.activeDraft)
    ensures r.Ok? <==> InputError(input, isUuid).None? && old(repo.GetByID(input.orderId)).Ok? && OrderError(old(repo.byId[input.orderId]), input).None?
    ensures r.Ok? ==> repo.byId == old(repo.byId)[input.orderId := Edited(old(repo.byId[input.orderId]), input)]
    ensures r.Ok? ==> repo.activeDraft == old(repo.activeDraft)
    ensures r.Ok? ==> r.value == ToOrderDto(Edited(old(repo.byId[input.orderId]), input))
  {
    var inErr := InputError(input, isUuid);
    if inErr.Some? {
      return Err(inErr.value);
    }
    var got := repo.GetByID(input.orderId);
    if got.Err? {
      return Err(got.error);
    }
    var o := got.value;
    if o.userId != input.userId {
      return Err(New(CodeForbidden, "order does not belong to user"));
    }
    if o.status != OrderCreated {
      return Err(New(CodeConflict, "order is not editable"));
    }
    var idx := FindLine(o.items, input.itemId);
    if idx == -1 {
      return Err(New(CodeNotFound, "order item not found"));
    }
    o := o.(items := RemoveLineAt(o.items, idx));
    o := RecalculateTotals(o);
    var err := repo.Update(o);
    if err.Some? {
      // The stored order passed Update's field checks and stays CREATED.
      assert false;
    }
    return Ok(ToOrderDto(o));
  }

  /** The saved order holds one line fewer: the removed one, and only it, is
      gone (as a multiset of lines up to their recalculated totals), and the
      subtotal is that of the remaining lines. */
  lemma EditedDropsThatLine(o: Order, input: RemoveItemInput)
    requires IndexOfLine(o.items, input.itemId) >= 0
    ensures var e := Edited(o, input); var idx := IndexOfLine(o.items, input.itemId);
      && |e.items| == |o.items| - 1
      && (forall k :: 0 <= k < idx ==> SameLineExceptTotals(o.items[k], e.items[k]))
      && (forall k :: idx <= k < |e.items| ==> SameLineExceptTotals(o.items[k + 1], e.items[k]))
      && multiset(RemoveLineAt(o.items, idx)) + multiset{o.items[idx]} == multiset(o.items)
      && e.subtotal == ExpectedSubtotal(RemoveLineAt(o.items, idx))
      && e.total == e.subtotal + o.fees
  {
    var idx := IndexOfLine(o.items, input.itemId);
    var o' := o.(items := RemoveLineAt(o.items, idx));
    RecalculatedKeepsEverythingElse(o');
    RecalculatedTotalsCorrect(o');
    RemoveLineAtMultiset(o.items, idx);
    var e := Edited(o, input);
    forall k | 0 <= k < idx
      ensures SameLineExceptTotals(o.items[k], e.items[k])
    {
      assert SameLineExceptTotals(o'.items[k], e.items[k]);
    }
    forall k | idx <= k < |e.items|
      ensures SameLineExceptTotals(o.items[k + 1], e.items[k])
    {
      assert SameLineExceptTotals(o'.items[k], e.items[k]);
    }
  }
}
