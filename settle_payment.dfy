/** ConfirmPaymentUsecase.Execute (internal/usecase/payment/confirm.go) and
    FailPaymentUsecase.Execute (internal/usecase/payment/fail.go): the two
    ways a PENDING payment is settled. Confirm also moves a PLACED order to
    PAID; the two repository writes are separate steps. `now` is the clock
    reading Confirm stamps as PaidAt. */
module SettlePayment {
  import opened Errx
  import opened OrderEntity
  import opened OrderRepo
  import opened PaymentEntity
  import opened PaymentDto
  import opened PaymentRepo

  datatype SettleInput = SettleInput(paymentId: string, userId: string)

  /** The checks on the input alone; Confirm and Fail differ only in how
      they word a missing payment id. */
  function InputError(input: SettleInput, isUuid: string -> bool, missingPayment: string): (r: Option<Error>)
    ensures r.None? <==> input.paymentId != "" && input.userId != "" && isUuid(input.paymentId) && isUuid(input.userId)
    ensures r.Some? ==> (CodeOf(r.value) == CodeUnauthorized <==> input.paymentId != "" && input.userId == "")
    ensures r.Some? && CodeOf(r.value) != CodeUnauthorized ==> CodeOf(r.value) == CodeInvalid
  {
    if input.paymentId == "" then Some(New(CodeInvalid, missingPayment))
    else if input.userId == "" then Some(New(CodeUnauthorized, "missing user"))
    else if !isUuid(input.paymentId) then Some(New(CodeInvalid, "invalid payment id"))
    else if !isUuid(input.userId) then Some(New(CodeInvalid, "invalid user id"))
    else None
  }

  /** The stored payment a request may settle: the lookup's error, or a
      payment of another user. */
  function LookupError(payments: PaymentRepo, input: SettleInput): (r: Option<Error>)
    reads payments
    ensures r.None? <==> input.paymentId != "" && input.paymentId in payments.byId && payments.byId[input.paymentId].userId == input.userId
  {
    match payments.GetByID(input.paymentId)
    case Err(e) => Some(e)
    case Ok(p) => if p.userId != input.userId then Some(New(CodeForbidden, "payment does not belong to user")) else None
  }

  function Confirmed(p: Payment, now: int): (r: Payment)
    ensures r.status == PaymentPaid && r.paidAt == Some(now)
    ensures KeyOfPayment(r) == KeyOfPayment(p) && r.id == p.id && r.amount == p.amount
  {
    p.(status := PaymentPaid, paidAt := Some(now))
  }

  /** The order after a confirmed payment: PAID if it was PLACED, else as it was. */
  function OrderAfterConfirm(o: Order): (r: Order)
    ensures o.status == OrderPlaced ==> r == o.(status := OrderPaid)
    ensures o.status != OrderPlaced ==> r == o
  {
    if o.status == OrderPlaced then o.(status := OrderPaid) else o
  }

  method Confirm(orders: OrderRepo, payments: PaymentRepo, input: SettleInput, isUuid: string -> bool, now: int)
    returns (r: Result<PaymentDto>)
    requires orders.Valid() && payments.Valid()
    modifies orders, payments
    ensures orders.Valid() && payments.Valid()
    ensures old(orders.DraftIndexExact()) ==> orders.DraftIndexExact()
    ensures old(payments.IndexesExact()) ==> payments.IndexesExact()
    ensures payments.byOrder == old(payments.byOrder) && payments.byOrderKey == old(payments.byOrderKey)
    ensures orders.activeDraft == old(orders.activeDraft)
    ensures forall id :: id in old(payments.byId) ==>
              id in payments.byId && PaymentStep(old(payments.byId[id]).status, payments.byId[id].status)
    ensures forall id :: id in old(orders.byId) ==>
              id in orders.byId && OrderStep(old(orders.byId[id]).status, orders.byId[id].status)
    ensures InputError(input, isUuid, "missing paymentId").Some? ==> r == Err(InputError(input, isUuid, "missing paymentId").value)
    ensures InputError(input, isUuid, "missing paymentId").None? && old(LookupError(payments, input)).Some? ==>
              r == Err(old(LookupError(payments, input)).value)
    ensures InputError(input, isUuid, "missing paymentId").Some? || old(LookupError(payments, input)).Some? ==>
              payments.byId == old(payments.byId) && orders.byId == old(orders.byId)
    ensures InputError(input, isUuid, "missing paymentId").None? && old(LookupError(payments, input)).None? ==>
              var p := old(payments.byId[input.paymentId]);
              if p.status == PaymentPaid then
                // already confirmed: a no-op that reports the payment
                && r == Ok(ToPaymentDto(p))
                && payments.byId == old(payments.byId) && orders.byId == old(orders.byId)
              else if p.status != PaymentPending then
                && r == Err(New(CodeConflict, "payment must be PENDING to confirm"))
                && payments.byId == old(payments.byId) && orders.byId == old(orders.byId)
              else
                // the payment is PAID from here on, even if the order step fails
                && payments.byId == old(payments.byId)[p.id := Confirmed(p, now)]
                && (r.Ok? <==> old(orders.GetByID(p.orderId)).Ok?)
                && (r.Err? ==> r.error == old(orders.GetByID(p.orderId)).error && orders.byId == old(orders.byId))
                && (r.Ok? ==> r.value == ToPaymentDto(Confirmed(p, now))
                              && orders.byId == old(orders.byId)[p.orderId := OrderAfterConfirm(old(orders.byId[p.orderId]))])
  {
    var inErr := InputError(input, isUuid, "missing paymentId");
    if inErr.Some? {
      return Err(inErr.value);
    }
    var got := payments.GetByID(input.paymentId);
    if got.Err? {
      return Err(got.error);
    }
    var p := got.value;
    if p.userId != input.userId {
      return Err(New(CodeForbidden, "payment does not belong to user"));
    }
    if p.status == PaymentPaid {
      return Ok(ToPaymentDto(p));
    }
    if p.status != PaymentPending {
      return Err(New(CodeConflict, "payment must be PENDING to confirm"));
    }
    p := p.(status := PaymentPaid, paidAt := Some(now));
    var err := payments.Update(p);
    if err.Some? {
      // The payment was just read under this non-empty id.
      assert false;
    }
    var gotOrder := orders.GetByID(p.orderId);
    if gotOrder.Err? {
      return Err(gotOrder.error);
    }
    var o := gotOrder.value;
    if o.status == OrderPlaced {
      o := o.(status := OrderPaid);
      var oerr := orders.Update(o);
      if oerr.Some? {
        // A stored order moving from PLACED to PAID passes every check of Update.
        assert false;
      }
    }
    return Ok(ToPaymentDto(p));
  }

  method Fail(payments: PaymentRepo, input: SettleInput, isUuid: string -> bool) returns (r: Result<PaymentDto>)
    requires payments.Valid()
    modifies payments
    ensures payments.Valid()
    ensures old(payments.IndexesExact()) ==> payments.IndexesExact()
    ensures payments.byOrder == old(payments.byOrder) && payments.byOrderKey == old(payments.byOrderKey)
    ensures forall id :: id in old(payments.byId) ==>
              id in payments.byId && PaymentStep(old(payments.byId[id]).status, payments.byId[id].status)
    ensures InputError(input, isUuid, "missing payment id").Some? ==> r == Err(InputError(input, isUuid, "missing payment id").value)
    ensures InputError(input, isUuid, "missing payment id").None? && old(LookupError(payments, input)).Some? ==>
              r == Err(old(LookupError(payments, input)).value)
    ensures InputError(input, isUuid, "missing payment id").None? && old(LookupError(payments, input)).None?
            && old(payments.byId[input.paymentId]).status != PaymentPending ==>
              r == Err(New(CodeConflict, "payment must be PENDING to fail"))
    ensures r.Err? ==> payments.byId == old(payments.byId)
    ensures r.Ok? <==> InputError(input, isUuid, "missing payment id").None? && old(LookupError(payments, input)).None?
                       && old(payments.byId[input.paymentId]).status == PaymentPending
    ensures r.Ok? ==> var p := old(payments.byId[input.paymentId]).(status := PaymentFailed);
                      payments.byId == old(payments.byId)[input.paymentId := p] && r.value == ToPaymentDto(p)
  {
    var inErr := InputError(input, isUuid, "missing payment id");
    if inErr.Some? {
      return Err(inErr.value);
    }
    var got := payments.GetByID(input.paymentId);
    if got.Err? {
      return Err(got.error);
    }
    var p := got.value;
    if p.userId != input.userId {
      return Err(New(CodeForbidden, "payment does not belong to user"));
    }
    if p.status != PaymentPending {
      return Err(New(CodeConflict, "payment must be PENDING to fail"));
    }
    p := p.(status := PaymentFailed);
    var err := payments.Update(p);
    if err.Some? {
      // The payment was just read under this non-empty id.
      assert false;
    }
    return Ok(ToPaymentDto(p));
  }
}
