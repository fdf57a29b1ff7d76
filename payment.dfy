/** The payment record (internal/domain/entity/payment.go) and the DTO the
    payment use cases hand out (ToPaymentDTO in
    internal/usecase/payment/create.go). Amounts are cents as unbounded ints;
    of the timestamps only PaidAt is kept, as an integer clock reading. */
module PaymentEntity {
  import opened Errx

  /** PaymentStatusEmpty stands for Go's zero value "" of the string-typed status. */
  datatype PaymentStatus =
    | PaymentStatusEmpty
    | PaymentCreated
    | PaymentPending
    | PaymentPaid
    | PaymentFailed
    | PaymentCanceled

  function PaymentStatusText(s: PaymentStatus): string
  {
    match s
    case PaymentStatusEmpty => ""
    case PaymentCreated => "CREATED"
    case PaymentPending => "PENDING"
    case PaymentPaid => "PAID"
    case PaymentFailed => "FAILED"
    case PaymentCanceled => "CANCELED"
  }

  /** Reads a status back from its text; unknown text reads as the empty status. */
  function ParsePaymentStatus(t: string): PaymentStatus
  {
    if t == "CREATED" then PaymentCreated
    else if t == "PENDING" then PaymentPending
    else if t == "PAID" then PaymentPaid
    else if t == "FAILED" then PaymentFailed
    else if t == "CANCELED" then PaymentCanceled
    else PaymentStatusEmpty
  }

  const MethodMock: string := "MOCK"
  const ProviderMock: string := "MOCK"

  /** paidAt is None while the Go pointer is nil. */
  datatype Payment = Payment(
    id: string,
    orderId: string,
    userId: string,
    storeId: string,
    payMethod: string,
    provider: string,
    status: PaymentStatus,
    amount: int,
    currency: string,
    idempotencyKey: string,
    paidAt: Option<int>)

  /** The moves the payment use cases make: confirm takes PENDING to PAID,
      fail takes PENDING to FAILED; nothing ever leaves PAID or FAILED. */
  predicate PaymentStep(from: PaymentStatus, to: PaymentStatus)
  {
    from == to || (from == PaymentPending && (to == PaymentPaid || to == PaymentFailed))
  }
}

module PaymentDto {
  import opened Errx
  import opened PaymentEntity

  /** PaymentDTO: the enum fields as their strings. */
  datatype PaymentDto = PaymentDto(
    id: string,
    orderId: string,
    userId: string,
    storeId: string,
    payMethod: string,
    provider: string,
    status: string,
    amount: int,
    currency: string,
    idempotencyKey: string,
    paidAt: Option<int>)

  /** ToPaymentDTO: a field-by-field copy. */
  function ToPaymentDto(p: Payment): (d: PaymentDto)
    ensures d.id == p.id && d.userId == p.userId && d.amount == p.amount
    ensures d.status == PaymentStatusText(p.status)
  {
    PaymentDto(p.id, p.orderId, p.userId, p.storeId, p.payMethod, p.provider, PaymentStatusText(p.status),
               p.amount, p.currency, p.idempotencyKey, p.paidAt)
  }

  function FromPaymentDto(d: PaymentDto): Payment
  {
    Payment(d.id, d.orderId, d.userId, d.storeId, d.payMethod, d.provider, ParsePaymentStatus(d.status),
            d.amount, d.currency, d.idempotencyKey, d.paidAt)
  }

  /** The status strings are distinct, so the DTO loses nothing. */
  lemma ToPaymentDtoRoundTrip(p: Payment)
    ensures FromPaymentDto(ToPaymentDto(p)) == p
  {
  }

  lemma ToPaymentDtoInjective(a: Payment, b: Payment)
    requires ToPaymentDto(a) == ToPaymentDto(b)
    ensures a == b
  {
    ToPaymentDtoRoundTrip(a);
    ToPaymentDtoRoundTrip(b);
  }
}
