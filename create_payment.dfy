/** CreatePaymentUsecase.Execute (internal/usecase/payment/create.go): opens a
    PENDING payment for a PLACED order the caller owns, for the order's
    recalculated total, with idempotent replay by (order, key). */
module CreatePayment {
  import opened Errx
  import opened OrderEntity
  import opened OrderRepo
  import opened PaymentEntity
  import opened PaymentDto
  import opened PaymentRepo
  import opened Repository

  datatype CreatePaymentInput = CreatePaymentInput(orderId: string, userId: string, payMethod: string, idempotencyKey: string)

  /** The checks on the input alone, in the order they apply. */
  function InputError(input: CreatePaymentInput, isUuid: string -> bool): (r: Option<Error>)
    ensures r.None? <==> input.orderId != "" && input.userId != "" && isUuid(input.orderId) && isUuid(input.userId)
    ensures r.Some? ==> (CodeOf(r.value) == CodeUnauthorized <==> input.orderId != "" && input.userId == "")
    ensures r.Some? && CodeOf(r.value) != CodeUnauthorized ==> CodeOf(r.value) == CodeInvalid
  {
    if input.orderId == "" then Some(New(CodeInvalid, "missing order id"))
    else if input.userId == "" then Some(New(CodeUnauthorized, "missing user"))
    else if !isUuid(input.orderId) then Some(New(CodeInvalid, "invalid order id"))
    else if !isUuid(input.userId) then Some(New(CodeInvalid, "invalid user id"))
    else None
  }

  /** The checks against the stored order, in the order they apply. */
  function OrderError(o: Order, input: CreatePaymentInput): (r: Option<Error>)
    ensures r.None? <==> o.userId == input.userId && o.status == OrderPlaced && |o.items| > 0
    ensures o.userId != input.userId ==> r == Some(New(CodeForbidden, "order does not belong to user"))
    ensures o.userId == input.userId && o.status != OrderPlaced ==> r == Some(New(CodeConflict, "order must be PLACED to create payment"))
  {
    if o.userId != input.userId then Some(New(CodeForbidden, "order does not belong to user"))
    else if o.status != OrderPlaced then Some(New(CodeConflict, "order must be PLACED to create payment"))
    else if |o.items| == 0 then Some(New(CodeInvalid, "order has no items"))
    else None
  }

  /** An empty method means MOCK. */
  function MethodOrDefault(m: string): (r: string)
    ensures r != "" && (m != "" ==> r == m)
  {
    if m == "" then MethodMock else m
  }

  /** The payment Execute creates: PENDING, mock provider, BRL, and the amount
      of the order's total recalculated at this moment. */
  function NewPayment(id: string, o: Order, input: CreatePaymentInput): Payment
  {
    Payment(id, o.id, o.userId, o.storeId, MethodOrDefault(input.payMethod), ProviderMock, PaymentPending,
            Recalculated(o).total, "BRL", input.idempotencyKey, None)
  }

  /** The payment already created for this order under the input's key, if any. */
  function Replay(payments: PaymentRepo, o: Order, input: CreatePaymentInput): Option<Payment>
    reads payments
  {
    if input.idempotencyKey != "" && payments.GetByOrderAndKey(o.id, input.idempotencyKey).Ok?
    then Some(payments.GetByOrderAndKey(o.id, input.idempotencyKey).value)
    else None
  }

  method Execute(orders: OrderRepo, payments: PaymentRepo, input: CreatePaymentInput, isUuid: string -> bool, freshId: string)
    returns (r: Result<PaymentDto>)
    requires orders.Valid() && payments.Valid()
    modifies payments
    ensures payments.Valid()
    ensures old(payments.IndexesExact()) ==> payments.IndexesExact()
    ensures InputError(input, isUuid).Some? ==> r == Err(InputError(input, isUuid).value)
    ensures InputError(input, isUuid).None? && orders.GetByID(input.orderId).Err? ==> r == Err(orders.GetByID(input.orderId).error)
    ensures InputError(input, isUuid).None? && orders.GetByID(input.orderId).Ok? && OrderError(orders.byId[input.orderId], input).Some? ==>
              r == Err(OrderError(orders.byId[input.orderId], input).value)
    ensures r.Err? ==> payments.byId == old(payments.byId) && payments.byOrder == old(payments.byOrder)
                       && payments.byOrderKey == old(payments.byOrderKey)
    ensures InputError(input, isUuid).None? && orders.GetByID(input.orderId).Ok? && OrderError(orders.byId[input.orderId], input).None? ==>
              var o := orders.byId[input.orderId];
              var p := NewPayment(freshId, o, input);
              if old(Replay(payments, o, input)).Some? then
                // idempotent replay: the stored payment, and nothing changes
                && r == Ok(ToPaymentDto(old(Replay(payments, o, input)).value))
                && payments.byId == old(payments.byId) && payments.byOrder == old(payments.byOrder)
                && payments.byOrderKey == old(payments.byOrderKey)
              else if old(payments.CreateError(p)).Some? then
                r == Err(old(payments.CreateError(p)).value)
              else
                && r == Ok(ToPaymentDto(p))
                && payments.byId == old(payments.byId)[freshId := p]
                && payments.byOrder == old(payments.byOrder)[o.id := IdsUnder(old(payments.byOrder), o.id) + [freshId]]
                && payments.byOrderKey == (if input.idempotencyKey != "" then old(payments.byOrderKey)[OrderKey(o.id, input.idempotencyKey) := freshId]
                                           else old(payments.byOrderKey))
    ensures r.Ok? && input.idempotencyKey != "" ==>
              payments.GetByOrderAndKey(input.orderId, input.idempotencyKey) == Ok(FromPaymentDto(r.value))
  {
    var inErr := InputError(input, isUuid);
    if inErr.Some? {
      return Err(inErr.value);
    }
    var got := orders.GetByID(input.orderId);
    if got.Err? {
      return Err(got.error);
    }
    var o := got.value;
    if o.userId != input.userId {
      return Err(New(CodeForbidden, "order does not belong to user"));
    }
    if o.status != OrderPlaced {
      return Err(New(CodeConflict, "order must be PLACED to create payment"));
    }
    if |o.items| == 0 {
      return Err(New(CodeInvalid, "order has no items"));
    }
    if input.idempotencyKey != "" {
      var existing := payments.GetByOrderAndKey(o.id, input.idempotencyKey);
      if existing.Ok? {
        ToPaymentDtoRoundTrip(existing.value);
        return Ok(ToPaymentDto(existing.value));
      }
      if !Is(existing.error, CodeNotFound) {
        // o.id and the key are both non-empty, so the lookup can only miss.
        assert false;
      }
    }
    var total := RecalculateTotals(o);
    var p := Payment(freshId, o.id, o.userId, o.storeId, MethodOrDefault(input.payMethod), ProviderMock, PaymentPending,
                     total.total, "BRL", input.idempotencyKey, None);
    var err := payments.Create(p);
    if err.Some? {
      if Is(err.value, CodeConflict) && input.idempotencyKey != "" {
        var again := payments.GetByOrderAndKey(o.id, input.idempotencyKey);
        if again.Ok? {
          // The failed Create changed nothing, and the lookup just missed.
          assert false;
        }
      }
      return Err(err.value);
    }
    ToPaymentDtoRoundTrip(p);
    return Ok(ToPaymentDto(p));
  }

  /** Idempotent replay: repeating a successful request with the same key,
      whatever fresh id the second attempt draws, returns the same payment,
      and the two requests together store at most that one payment. */
  method RepeatWithSameKey(orders: OrderRepo, payments: PaymentRepo, input: CreatePaymentInput, isUuid: string -> bool,
                           firstId: string, secondId: string)
    returns (first: Result<PaymentDto>, second: Result<PaymentDto>)
    requires orders.Valid() && payments.Valid()
    requires input.idempotencyKey != ""
    modifies payments
    ensures first.Ok? ==> second == first
    ensures first.Ok? ==> payments.byId == old(payments.byId)
                          || payments.byId == old(payments.byId)[firstId := FromPaymentDto(first.value)]
  {
    first := Execute(orders, payments, input, isUuid, firstId);
    second := Execute(orders, payments, input, isUuid, secondId);
    if first.Ok? {
      var p := FromPaymentDto(first.value);
      assert InputError(input, isUuid).None? && orders.GetByID(input.orderId).Ok?;
      assert OrderError(orders.byId[input.orderId], input).None?;
      assert orders.byId[input.orderId].id == input.orderId;
      assert Replay(payments, orders.byId[input.orderId], input) == Some(p);
      ToPaymentDtoRoundTrip(p);
    }
  }
}
