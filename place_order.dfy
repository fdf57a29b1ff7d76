/** PlaceOrderUsecase.Execute (internal/usecase/order/place.go): turns the
    caller's CREATED, non-empty order into a PLACED one with recalculated
    totals, which frees its (user, store) pair for a new draft. */
module PlaceOrder {
  import opened Errx
  import opened OrderEntity
  import opened OrderRepo
  import opened OrderDto

  datatype PlaceOrderInput = PlaceOrderInput(orderId: string, userId: string)

  /** The checks on the input alone, in the order they apply. */
  function InputError(input: PlaceOrderInput, isUuid: string -> bool): (r: Option<Error>)
    ensures r.None? <==> input.orderId != "" && input.userId != "" && isUuid(input.orderId) && isUuid(input.userId)
    ensures r.Some? ==> (CodeOf(r.value) == CodeUnauthorized <==> input.orderId != "" && input.userId == "")
    ensures r.Some? && CodeOf(r.value) != CodeUnauthorized ==> CodeOf(r.value) == CodeInvalid
  {
    if input.orderId == "" then Some(New(CodeInvalid, "missing orderId"))
    else if input.userId == "" then Some(New(CodeUnauthorized, "missing user"))
    else if !isUuid(input.orderId) then Some(New(CodeInvalid, "invalid order id"))
    else if !isUuid(input.userId) then Some(New(CodeInvalid, "invalid user id"))
    else None
  }

  /** The checks against the stored order, in the order they apply. */
  function OrderError(o: Order, input: PlaceOrderInput): (r: Option<Error>)
    ensures r.None? <==> o.userId == input.userId && o.status == OrderCreated && |o.items| > 0
    ensures o.userId != input.userId ==> r == Some(New(CodeForbidden, "order does not belong to user"))
    ensures o.userId == input.userId && o.status != OrderCreated ==> r == Some(New(CodeConflict, "order cannot be placed"))
  {
    if o.userId != input.userId then Some(New(CodeForbidden, "order does not belong to user"))
    else if o.status != OrderCreated then Some(New(CodeConflict, "order cannot be placed"))
    else if |o.items| == 0 then Some(New(CodeInvalid, "order has no items"))
    else None
  }

  /** The order as it is saved: totals recalculated, then status PLACED. */
  function Placed(o: Order): Order
  {
    Recalculated(o).(status := OrderPlaced)
  }

  method Execute(repo: OrderRepo, input: PlaceOrderInput, isUuid: string -> bool) returns (r: Result<OrderDto>)
    requires repo.Valid()
    modifies repo
    ensures repo.Valid()
    ensures old(repo.DraftIndexExact()) ==> repo.DraftIndexExact()
    ensures InputError(input, isUuid).Some? ==> r == Err(InputError(input, isUuid).value)
    ensures InputError(input, isUuid).None? && old(repo.GetByID(input.orderId)).Err? ==> r == Err(old(repo.GetByID(input.orderId)).error)
    ensures InputError(input, isUuid).None? && old(repo.GetByID(input.orderId)).Ok? && OrderError(old(repo.byId[input.orderId]), input).Some? ==>
              r == Err(OrderError(old(repo.byId[input.orderId]), input).value)
    ensures r.Err? ==> repo.byId == old(repo.byId) && repo.activeDraft == old(repo.activeDraft)
    ensures r.Ok? <==> InputError(input, isUuid).None? && old(repo.GetByID(input.orderId)).Ok? && OrderError(old(repo.byId[input.orderId]), input).None?
    ensures r.Ok? ==> repo.byId == old(repo.byId)[input.orderId := Placed(old(repo.byId[input.orderId]))]
    ensures r.Ok? ==> (repo.activeDraft ==
              if old(repo.DraftFor(KeyOf(repo.byId[input.orderId]))) == input.orderId
              then old(repo.activeDraft) - {KeyOf(repo.byId[input.orderId])} else old(repo.activeDraft))
    ensures r.Ok? ==> r.value == ToOrderDto(Placed(old(repo.byId[input.orderId])))
    ensures forall id :: id in old(repo.byId) ==> id in repo.byId && OrderStep(old(repo.byId[id]).status, repo.byId[id].status)
    ensures r.Ok? && old(repo.DraftIndexExact()) ==>
              repo.GetActiveDraftByUserIDAndStoreID(input.userId, repo.byId[input.orderId].storeId) ==
              Err(New(CodeNotFound, "active draft not found"))
  {
    var inErr := InputError(input, isUuid);
    if inErr.Some? {
      return Err(inErr.value);
    }
    var got := repo.GetByID(input.orderId);
    if got.Err? {
      return Err(got.error);
    }
    var o := got.value;
    if o.userId != input.userId {
      return Err(New(CodeForbidden, "order does not belong to user"));
    }
    if o.status != OrderCreated {
      return Err(New(CodeConflict, "order cannot be placed"));
    }
    if |o.items| == 0 {
      return Err(New(CodeInvalid, "order has no items"));
    }
    o := RecalculateTotals(o);
    o := o.(status := OrderPlaced);
    var err := repo.Update(o);
    if err.Some? {
      // The stored order passed Update's field checks and leaves CREATED.
      assert false;
    }
    return Ok(ToOrderDto(o));
  }

  /** The placed order keeps its lines and snapshots, is PLACED, and carries
      the totals its lines and fees call for. */
  lemma PlacedIsPricedAndPlaced(o: Order)
    ensures Placed(o).status == OrderPlaced
    ensures |Placed(o).items| == |o.items|
    ensures forall i :: 0 <= i < |o.items| ==> SameLineExceptTotals(o.items[i], Placed(o).items[i])
    ensures Placed(o).subtotal == ExpectedSubtotal(o.items)
    ensures Placed(o).total == ExpectedSubtotal(o.items) + o.fees
    ensures Placed(o).id == o.id && KeyOf(Placed(o)) == KeyOf(o)
  {
    RecalculatedKeepsEverythingElse(o);
    RecalculatedTotalsCorrect(o);
    assert SameExceptTotals(o, Recalculated(o));
  }
}
