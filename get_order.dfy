/** GetOrder.Execute (internal/usecase/order/get_order.go): an order by id,
    only to the user who owns it. */
module GetOrder {
  import opened Errx
  import opened OrderEntity
  import opened OrderRepo
  import opened OrderDto

  datatype GetOrderInput = GetOrderInput(orderId: string, userId: string)

  /** The checks on the input alone, in the order they apply. */
  function InputError(input: GetOrderInput, isUuid: string -> bool): (r: Option<Error>)
    ensures r.None? <==> input.orderId != "" && input.userId != "" && isUuid(input.orderId) && isUuid(input.userId)
    ensures r.Some? ==> (CodeOf(r.value) == CodeUnauthorized <==> input.orderId != "" && input.userId == "")
    ensures r.Some? && CodeOf(r.value) != CodeUnauthorized ==> CodeOf(r.value) == CodeInvalid
  {
    if input.orderId == "" then Some(New(CodeInvalid, "missing orderId"))
    else if input.userId == "" then Some(New(CodeUnauthorized, "missing userId"))
    else if !isUuid(input.orderId) then Some(New(CodeInvalid, "invalid orderId"))
    else if !isUuid(input.userId) then Some(New(CodeInvalid, "invalid userId"))
    else None
  }

  /** A stored order is handed out only to its owner, and then in full. */
  function Execute(repo: OrderRepo, input: GetOrderInput, isUuid: string -> bool): (r: Result<OrderDto>)
    reads repo
    ensures InputError(input, isUuid).Some? ==> r == Err(InputError(input, isUuid).value)
    ensures InputError(input, isUuid).None? && input.orderId !in repo.byId ==> r == Err(New(CodeNotFound, "order not found"))
    ensures InputError(input, isUuid).None? && input.orderId in repo.byId && repo.byId[input.orderId].userId != input.userId ==>
              r == Err(New(CodeForbidden, "order does not belong to user"))
    ensures r.Ok? <==> InputError(input, isUuid).None? && input.orderId in repo.byId && repo.byId[input.orderId].userId == input.userId
    ensures r.Ok? ==> r.value.userId == input.userId && FromOrderDto(r.value) == repo.byId[input.orderId]
  {
    match InputError(input, isUuid)
    case Some(e) => Err(e)
    case None =>
      match repo.GetByID(input.orderId)
      case Err(e) => Err(e)
      case Ok(o) =>
        if o.userId != input.userId then Err(New(CodeForbidden, "order does not belong to user"))
        else
          ToOrderDtoRoundTrip(o);
          Ok(ToOrderDto(o))
  }
}
