/** The in-memory payment repository
    (internal/infra/db/repository/payment/payment_in_memory.go): payments by
    id, the per-order list of payment ids in creation order, and the
    idempotency index from (order, key) to the payment created with that key.
    Payments are values, so clonePayment's copies are implicit. */
module PaymentRepo {
  import opened Errx
  import opened Repository
  import opened PaymentEntity

  datatype OrderKey = OrderKey(orderId: string, key: string)

  function KeyOfPayment(p: Payment): OrderKey
  {
    OrderKey(p.orderId, p.idempotencyKey)
  }

  /** Create's field checks, in the order they apply. */
  function CheckPaymentFields(p: Payment): (r: Option<Error>)
    ensures r.None? <==> p.id != "" && p.orderId != "" && p.userId != "" && p.storeId != "" && p.amount >= 0
    ensures r.Some? ==> CodeOf(r.value) == CodeInvalid
  {
    if p.id == "" then Some(New(CodeInvalid, "missing id"))
    else if p.orderId == "" then Some(New(CodeInvalid, "missing orderId"))
    else if p.userId == "" then Some(New(CodeInvalid, "missing userId"))
    else if p.storeId == "" then Some(New(CodeInvalid, "missing storeId"))
    else if p.amount < 0 then Some(New(CodeInvalid, "amount must be >= 0"))
    else None
  }

  /** Create stores an empty currency as BRL and an empty status as CREATED. */
  function WithDefaults(p: Payment): (r: Payment)
    ensures r.currency != "" && r.status != PaymentStatusEmpty
    ensures p.currency != "" && p.status != PaymentStatusEmpty ==> r == p
    ensures r == p.(currency := r.currency, status := r.status)
  {
    p.(currency := if p.currency == "" then "BRL" else p.currency,
       status := if p.status == PaymentStatusEmpty then PaymentCreated else p.status)
  }

  /** The idempotency index holds exactly the payments with a non-empty key,
      each under its own (order, key). */
  ghost predicate KeysExact(byId: map<string, Payment>, keys: map<OrderKey, string>)
  {
    && (forall k :: k in keys ==> keys[k] in byId && KeyOfPayment(byId[keys[k]]) == k && k.key != "")
    && (forall id :: id in byId && byId[id].idempotencyKey != "" ==>
          KeyOfPayment(byId[id]) in keys && keys[KeyOfPayment(byId[id])] == id)
  }

  /** Storing a new payment, and indexing it when it has a key whose slot is
      free, keeps the idempotency index exact. */
  lemma KeysExactInsert(byId: map<string, Payment>, keys: map<OrderKey, string>, n: Payment)
    requires KeysExact(byId, keys) && n.id !in byId
    requires n.idempotencyKey != "" ==> KeyOfPayment(n) !in keys
    ensures KeysExact(byId[n.id := n], if n.idempotencyKey != "" then keys[KeyOfPayment(n) := n.id] else keys)
  {
    var byId' := byId[n.id := n];
    var keys' := if n.idempotencyKey != "" then keys[KeyOfPayment(n) := n.id] else keys;
    forall k | k in keys'
      ensures keys'[k] in byId' && KeyOfPayment(byId'[keys'[k]]) == k && k.key != ""
    {
      if n.idempotencyKey != "" && k == KeyOfPayment(n) {
      } else {
        assert keys'[k] == keys[k] && keys[k] != n.id;
      }
    }
  }

  /** Replacing a stored payment by one with the same order and key keeps the
      idempotency index exact. */
  lemma KeysExactReplace(byId: map<string, Payment>, keys: map<OrderKey, string>, p: Payment)
    requires KeysExact(byId, keys) && p.id in byId && KeyOfPayment(byId[p.id]) == KeyOfPayment(p)
    ensures KeysExact(byId[p.id := p], keys)
  {
  }

  /** Replacing a stored payment by one with the same order keeps the
      per-order lists exact. */
  lemma IndexedByReplace(byId: map<string, Payment>, index: map<string, seq<string>>, p: Payment)
    requires IndexedBy(byId, index, (p: Payment) => p.orderId)
    requires p.id in byId && byId[p.id].orderId == p.orderId
    ensures IndexedBy(byId[p.id := p], index, (p: Payment) => p.orderId)
  {
  }

  class PaymentRepo {
    var byId: map<string, Payment>
    var byOrder: map<string, seq<string>>
    var byOrderKey: map<OrderKey, string>

    /** What Create and Update always maintain: records are keyed by their
        id, and every index entry names a stored payment. */
    ghost predicate Valid()
      reads this
    {
      && "" !in byId
      && (forall id :: id in byId ==> byId[id].id == id)
      && (forall k :: k in byOrderKey ==> byOrderKey[k] in byId)
      && (forall o, j :: o in byOrder && 0 <= j < |byOrder[o]| ==> byOrder[o][j] in byId)
    }

    /** The indexes agree with the records: every payment is listed once
        under its order, and the idempotency index holds exactly the payments
        created with a key. Update keeps this as long as it leaves the order
        id and key alone, which the use cases do. */
    ghost predicate IndexesExact()
      reads this
    {
      IndexedBy(byId, byOrder, (p: Payment) => p.orderId) && KeysExact(byId, byOrderKey)
    }

    /** The idempotency entry of k; a missing key reads as "". */
    function KeyEntry(k: OrderKey): string
      reads this
    {
      if k in byOrderKey then byOrderKey[k] else ""
    }

    /** The error Create returns for p in the current state, if any. */
    function CreateError(p: Payment): (r: Option<Error>)
      reads this
      ensures CheckPaymentFields(p).Some? ==> r == CheckPaymentFields(p)
      ensures r.None? <==> CheckPaymentFields(p).None? && p.id !in byId
                           && (p.idempotencyKey != "" ==> KeyEntry(KeyOfPayment(p)) == "")
      ensures r.Some? && CheckPaymentFields(p).None? ==> CodeOf(r.value) == CodeConflict
    {
      if CheckPaymentFields(p).Some? then CheckPaymentFields(p)
      else if p.id in byId then Some(New(CodeConflict, "payment already exists"))
      else if p.idempotencyKey != "" && KeyEntry(KeyOfPayment(p)) != "" then
        Some(New(CodeConflict, "payment already exists for idempotency key"))
      else None
    }

    constructor()
      ensures Valid() && IndexesExact()
      ensures byId == map[] && byOrder == map[] && byOrderKey == map[]
    {
      byId := map[];
      byOrder := map[];
      byOrderKey := map[];
    }

    method Create(p: Payment) returns (err: Option<Error>)
      requires Valid()
      modifies this
      ensures Valid()
      ensures old(IndexesExact()) ==> IndexesExact()
      ensures err == old(CreateError(p))
      ensures err.Some? ==> byId == old(byId) && byOrder == old(byOrder) && byOrderKey == old(byOrderKey)
      ensures err.None? ==> byId == old(byId)[p.id := WithDefaults(p)]
      ensures err.None? ==> byOrder == old(byOrder)[p.orderId := IdsUnder(old(byOrder), p.orderId) + [p.id]]
      ensures err.None? ==> byOrderKey == if p.idempotencyKey != "" then old(byOrderKey)[KeyOfPayment(p) := p.id]
                                          else old(byOrderKey)
      ensures err.None? ==> GetByID(p.id) == Ok(WithDefaults(p))
      ensures err.None? && p.idempotencyKey != "" ==> GetByOrderAndKey(p.orderId, p.idempotencyKey) == Ok(WithDefaults(p))
      ensures err.None? && old(IndexesExact()) ==>
                Collect(IdsUnder(byOrder, p.orderId), byId) == Collect(IdsUnder(old(byOrder), p.orderId), old(byId)) + [WithDefaults(p)]
    {
      err := CreateError(p);
      if err.Some? {
        return;
      }
      var n := WithDefaults(p);
      if n.idempotencyKey != "" {
        byOrderKey := byOrderKey[KeyOfPayment(n) := n.id];
      }
      if old(IndexesExact()) {
        IndexedByInsert(byId, byOrder, (p: Payment) => p.orderId, n.id, n);
        CollectAfterInsert(IdsUnder(byOrder, n.orderId), byId, n.id, n);
        KeysExactInsert(byId, old(byOrderKey), n);
      }
      byOrder := byOrder[n.orderId := IdsUnder(byOrder, n.orderId) + [n.id]];
      byId := byId[n.id := n];
    }

    /** Replaces a stored payment; the indexes are not touched. */
    method Update(p: Payment) returns (err: Option<Error>)
      requires Valid()
      modifies this
      ensures Valid()
      ensures old(IndexesExact()) && p.id in old(byId) && KeyOfPayment(old(byId)[p.id]) == KeyOfPayment(p) ==> IndexesExact()
      ensures err == if p.id == "" then Some(New(CodeInvalid, "missing id"))
                     else if p.id !in old(byId) then Some(New(CodeNotFound, "payment not found"))
                     else None
      ensures err.Some? ==> byId == old(byId)
      ensures err.None? ==> byId == old(byId)[p.id := p]
      ensures byOrder == old(byOrder) && byOrderKey == old(byOrderKey)
    {
      if p.id == "" {
        return Some(New(CodeInvalid, "missing id"));
      }
      if p.id !in byId {
        return Some(New(CodeNotFound, "payment not found"));
      }
      if IndexesExact() && KeyOfPayment(byId[p.id]) == KeyOfPayment(p) {
        IndexedByReplace(byId, byOrder, p);
        KeysExactReplace(byId, byOrderKey, p);
      }
      byId := byId[p.id := p];
      err := None;
    }

    function GetByID(id: string): (r: Result<Payment>)
      reads this
      ensures Valid() && r.Ok? ==> r.value.id == id
    {
      GetById(byId, id, "payment not found")
    }

    /** The payment created for orderId with idempotency key `key`. */
    function GetByOrderAndKey(orderId: string, key: string): (r: Result<Payment>)
      reads this
      ensures orderId == "" || key == "" ==> r == Err(New(CodeInvalid, "missing orderId or key"))
      ensures orderId != "" && key != "" && r.Err? ==> r == Err(New(CodeNotFound, "payment not found"))
      ensures r.Ok? <==> orderId != "" && key != "" && KeyEntry(OrderKey(orderId, key)) != "" && KeyEntry(OrderKey(orderId, key)) in byId
      ensures r.Ok? ==> r.value == byId[KeyEntry(OrderKey(orderId, key))]
      ensures r.Ok? && IndexesExact() ==> r.value.orderId == orderId && r.value.idempotencyKey == key
    {
      if orderId == "" || key == "" then Err(New(CodeInvalid, "missing orderId or key"))
      else
        var id := KeyEntry(OrderKey(orderId, key));
        if id == "" then Err(New(CodeNotFound, "payment not found"))
        else if id !in byId then Err(New(CodeNotFound, "payment not found"))
        else Ok(byId[id])
    }

    /** The order's payments, in creation order. */
    method ListByOrderID(orderId: string) returns (r: Result<seq<Payment>>)
      requires Valid()
      ensures orderId == "" ==> r == Err(New(CodeInvalid, "missing orderId"))
      ensures orderId != "" ==> r == Ok(Collect(IdsUnder(byOrder, orderId), byId))
      ensures r.Ok? ==> |r.value| == |IdsUnder(byOrder, orderId)|
      ensures r.Ok? && IndexesExact() ==> forall k :: 0 <= k < |r.value| ==> r.value[k].orderId == orderId
    {
      if orderId == "" {
        return Err(New(CodeInvalid, "missing orderId"));
      }
      var out := CollectListed(IdsUnder(byOrder, orderId), byId);
      if IndexesExact() {
        forall k | 0 <= k < |out|
          ensures out[k].orderId == orderId
        {
          CollectFromIndex(IdsUnder(byOrder, orderId), byId, k);
        }
      }
      return Ok(out);
    }
  }

  /** The idempotency invariant: no two stored payments share an order and a
      non-empty key. */
  lemma OnePaymentPerKey(repo: PaymentRepo, a: string, b: string)
    requires repo.IndexesExact()
    requires a in repo.byId && b in repo.byId
    requires repo.byId[a].idempotencyKey != ""
    requires KeyOfPayment(repo.byId[a]) == KeyOfPayment(repo.byId[b])
    ensures a == b
  {
  }

  /** Under the index invariant the key lookup finds a payment exactly when
      one was stored for that order with that key, and then it finds that one. */
  lemma KeyLookupComplete(repo: PaymentRepo, orderId: string, key: string)
    requires repo.Valid() && repo.IndexesExact()
    requires orderId != "" && key != ""
    ensures repo.GetByOrderAndKey(orderId, key).Ok? <==>
              exists id :: id in repo.byId && KeyOfPayment(repo.byId[id]) == OrderKey(orderId, key)
    ensures forall id :: id in repo.byId && KeyOfPayment(repo.byId[id]) == OrderKey(orderId, key) ==>
              repo.GetByOrderAndKey(orderId, key) == Ok(repo.byId[id])
  {
    var k := OrderKey(orderId, key);
    if repo.GetByOrderAndKey(orderId, key).Ok? {
      var id := repo.byOrderKey[k];
      assert id in repo.byId && KeyOfPayment(repo.byId[id]) == k;
    }
  }

  /** Under the index invariant ListByOrderID's listing holds every payment
      of the order. */
  lemma ListingComplete(repo: PaymentRepo, id: string)
    requires repo.Valid() && repo.IndexesExact()
    requires id in repo.byId
    ensures repo.byId[id] in Collect(IdsUnder(repo.byOrder, repo.byId[id].orderId), repo.byId)
  {
    var ids := IdsUnder(repo.byOrder, repo.byId[id].orderId);
    var j :| 0 <= j < |ids| && ids[j] == id;
    CollectContains(ids, repo.byId, j);
  }
}
