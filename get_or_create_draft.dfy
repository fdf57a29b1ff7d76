/** GetOrCreateDraftUsecase.Execute
    (internal/usecase/order/get_or_create_draft.go): the caller's CREATED
    order for a store, creating an empty one when there is none. */
module GetOrCreateDraft {
  import opened Errx
  import opened OrderEntity
  import opened OrderRepo
  import opened OrderDto

  datatype GetOrCreateDraftInput = GetOrCreateDraftInput(userId: string, storeId: string, menuId: string)

  datatype GetOrCreateDraftOutput = GetOrCreateDraftOutput(order: OrderDto, created: bool)

  /** The empty CREATED order the use case stores; `id` is the one the UUID
      port generates. */
  function NewDraft(id: string, input: GetOrCreateDraftInput): (o: Order)
    ensures o.status == OrderCreated && o.items == []
    ensures o.subtotal == 0 && o.fees == 0 && o.total == 0
    ensures o.id == id && o.menuId == input.menuId
    ensures KeyOf(o) == DraftKey(input.userId, input.storeId)
  {
    Order(id, input.storeId, input.menuId, input.userId, OrderCreated, [], 0, 0, 0)
  }

  method Execute(repo: OrderRepo, input: GetOrCreateDraftInput, freshId: string) returns (r: Result<GetOrCreateDraftOutput>)
    requires repo.Valid()
    modifies repo
    ensures repo.Valid()
    ensures old(repo.DraftIndexExact()) ==> repo.DraftIndexExact()
    ensures input.userId == "" ==> r == Err(New(CodeInvalid, "missing userId"))
    ensures input.userId != "" && input.storeId == "" ==> r == Err(New(CodeInvalid, "missing storeId"))
    // an existing draft is handed back as it is
    ensures input.userId != "" && input.storeId != "" && old(repo.GetActiveDraftByUserIDAndStoreID(input.userId, input.storeId)).Ok? ==>
              r == Ok(GetOrCreateDraftOutput(ToOrderDto(old(repo.GetActiveDraftByUserIDAndStoreID(input.userId, input.storeId)).value), false))
    ensures r.Ok? && !r.value.created ==> repo.byId == old(repo.byId) && repo.activeDraft == old(repo.activeDraft)
    // otherwise a new one is created, unless Create refuses it
    ensures r.Ok? && r.value.created <==>
              input.userId != "" && input.storeId != "" && old(repo.GetActiveDraftByUserIDAndStoreID(input.userId, input.storeId)).Err?
              && freshId != "" && freshId !in old(repo.byId) && old(repo.DraftFor(DraftKey(input.userId, input.storeId))) == ""
    ensures r.Ok? && r.value.created ==>
              && r.value.order == ToOrderDto(NewDraft(freshId, input))
              && repo.byId == old(repo.byId)[freshId := NewDraft(freshId, input)]
              && repo.activeDraft == old(repo.activeDraft)[DraftKey(input.userId, input.storeId) := freshId]
    ensures r.Err? ==> repo.byId == old(repo.byId) && repo.activeDraft == old(repo.activeDraft)
    // whatever it returns is, afterwards, the pair's active draft
    ensures r.Ok? && old(repo.DraftIndexExact()) ==>
              repo.GetActiveDraftByUserIDAndStoreID(input.userId, input.storeId).Ok?
              && ToOrderDto(repo.GetActiveDraftByUserIDAndStoreID(input.userId, input.storeId).value) == r.value.order
    // with an exact index, only a clash of the generated id makes it fail
    ensures old(repo.DraftIndexExact()) && input.userId != "" && input.storeId != "" && freshId != "" && freshId !in old(repo.byId) ==>
              r.Ok?
  {
    if input.userId == "" {
      return Err(New(CodeInvalid, "missing userId"));
    }
    if input.storeId == "" {
      return Err(New(CodeInvalid, "missing storeId"));
    }
    // The Go code calls GetActiveDraftByUserStore, a name the repository
    // port does not declare; the port's draft lookup is the one meant.
    var found := repo.GetActiveDraftByUserIDAndStoreID(input.userId, input.storeId);
    if found.Ok? {
      return Ok(GetOrCreateDraftOutput(ToOrderDto(found.value), false));
    }
    if !Is(found.error, CodeNotFound) {
      // Past the two guards the lookup fails only with not_found.
      assert false;
    }
    var o := NewDraft(freshId, input);
    var err := repo.Create(o);
    if err.Some? {
      if Is(err.value, CodeConflict) {
        var existing := repo.GetActiveDraftByUserIDAndStoreID(input.userId, input.storeId);
        if existing.Ok? {
          // A failed Create changes nothing, so the lookup repeats the first
          // one; only a concurrent Create could make it succeed.
          assert false;
        }
      }
      return Err(err.value);
    }
    return Ok(GetOrCreateDraftOutput(ToOrderDto(o), true));
  }
}
