/** The in-memory order repository
    (internal/infra/db/repository/order/order_in_memory.go): orders by id, and
    the single-active-draft index from (user, store) to the id of that pair's
    CREATED order. Orders are values, so the deep copies the repository makes
    on the way in and out are implicit. */
module OrderRepo {
  import opened Errx
  import opened Repository
  import opened OrderEntity

  datatype DraftKey = DraftKey(userId: string, storeId: string)

  function KeyOf(o: Order): DraftKey
  {
    DraftKey(o.userId, o.storeId)
  }

  /** The field checks Create and Update share, in the order they apply. */
  function CheckOrderFields(o: Order): (r: Option<Error>)
    ensures r.None? <==> o.id != "" && o.storeId != "" && o.userId != ""
    ensures r.Some? ==> CodeOf(r.value) == CodeInvalid
  {
    if o.id == "" then Some(New(CodeInvalid, "missing id"))
    else if o.storeId == "" then Some(New(CodeInvalid, "missing storeId"))
    else if o.userId == "" then Some(New(CodeInvalid, "missing userId"))
    else None
  }

  /** Create stores an order with an empty status as CREATED. */
  function WithDefaultStatus(o: Order): (r: Order)
    ensures r.status != OrderStatusEmpty
    ensures o.status != OrderStatusEmpty ==> r == o
    ensures r == o.(status := r.status)
  {
    if o.status == OrderStatusEmpty then o.(status := OrderCreated) else o
  }

  /** Update keeps the index exact only when it leaves the order's (user,
      store) pair as it was; none of the use cases changes it. */
  predicate KeepsDraftKey(byId: map<string, Order>, o: Order)
  {
    o.id in byId ==> KeyOf(byId[o.id]) == KeyOf(o)
  }

  class OrderRepo {
    var byId: map<string, Order>
    var activeDraft: map<DraftKey, string>

    /** What Create and Update always maintain: records are keyed by their id
        and passed the field checks, and index entries are never "". */
    ghost predicate Valid()
      reads this
    {
      && (forall id :: id in byId ==> byId[id].id == id && CheckOrderFields(byId[id]).None?)
      && (forall k :: k in activeDraft ==> activeDraft[k] != "")
    }

    /** The single-active-draft invariant: every index entry names a stored
        CREATED order of that (user, store), and every CREATED order is the
        entry of its (user, store). */
    ghost predicate DraftIndexExact()
      reads this
    {
      && (forall k :: k in activeDraft ==>
            activeDraft[k] in byId && byId[activeDraft[k]].status == OrderCreated && KeyOf(byId[activeDraft[k]]) == k)
      && (forall id :: id in byId && byId[id].status == OrderCreated ==>
            KeyOf(byId[id]) in activeDraft && activeDraft[KeyOf(byId[id])] == id)
    }

    /** The index entry of k; a missing key reads as "". */
    function DraftFor(k: DraftKey): string
      reads this
    {
      if k in activeDraft then activeDraft[k] else ""
    }

    constructor()
      ensures Valid() && DraftIndexExact() && byId == map[] && activeDraft == map[]
    {
      byId := map[];
      activeDraft := map[];
    }

    method Create(o: Order) returns (err: Option<Error>)
      requires Valid()
      modifies this
      ensures Valid()
      ensures old(DraftIndexExact()) ==> DraftIndexExact()
      ensures CheckOrderFields(o).Some? ==> err == CheckOrderFields(o)
      ensures CheckOrderFields(o).None? && o.id in old(byId) ==> err == Some(New(CodeConflict, "order already exists"))
      ensures CheckOrderFields(o).None? && o.id !in old(byId) && WithDefaultStatus(o).status == OrderCreated && old(DraftFor(KeyOf(o))) != "" ==>
                err == Some(New(CodeConflict, "active draft already exists"))
      ensures err.None? <==> CheckOrderFields(o).None? && o.id !in old(byId)
                             && (WithDefaultStatus(o).status == OrderCreated ==> old(DraftFor(KeyOf(o))) == "")
      ensures err.Some? ==> byId == old(byId) && activeDraft == old(activeDraft)
      ensures err.None? ==> byId == old(byId)[o.id := WithDefaultStatus(o)]
      ensures err.None? ==> activeDraft == if WithDefaultStatus(o).status == OrderCreated
                                           then old(activeDraft)[KeyOf(o) := o.id] else old(activeDraft)
    {
      err := CheckOrderFields(o);
      if err.Some? {
        return;
      }
      var n := WithDefaultStatus(o);
      if n.id in byId {
        return Some(New(CodeConflict, "order already exists"));
      }
      if n.status == OrderCreated {
        var key := KeyOf(n);
        if DraftFor(key) != "" {
          return Some(New(CodeConflict, "active draft already exists"));
        }
        activeDraft := activeDraft[key := n.id];
      }
      byId := byId[n.id := n];
    }

    method Update(o: Order) returns (err: Option<Error>)
      requires Valid()
      modifies this
      ensures Valid()
      ensures old(DraftIndexExact()) && KeepsDraftKey(old(byId), o) ==> DraftIndexExact()
      ensures CheckOrderFields(o).Some? ==> err == CheckOrderFields(o)
      ensures CheckOrderFields(o).None? && o.id !in old(byId) ==> err == Some(New(CodeNotFound, "order not found"))
      ensures err.None? <==> CheckOrderFields(o).None? && o.id in old(byId)
                             && !(old(byId)[o.id].status != OrderCreated && o.status == OrderCreated
                                  && old(DraftFor(KeyOf(o))) != "" && old(DraftFor(KeyOf(o))) != o.id)
      ensures err.Some? && CheckOrderFields(o).None? && o.id in old(byId) ==>
                err == Some(New(CodeConflict, "active draft already exists"))
      ensures err.Some? ==> byId == old(byId) && activeDraft == old(activeDraft)
      ensures err.None? ==> byId == old(byId)[o.id := o]
      ensures err.None? ==> (activeDraft ==
                if old(byId)[o.id].status == OrderCreated && o.status != OrderCreated && old(DraftFor(KeyOf(o))) == o.id
                then old(activeDraft) - {KeyOf(o)}
                else if old(byId)[o.id].status != OrderCreated && o.status == OrderCreated
                then old(activeDraft)[KeyOf(o) := o.id]
                else old(activeDraft))
    {
      err := CheckOrderFields(o);
      if err.Some? {
        return;
      }
      if o.id !in byId {
        return Some(New(CodeNotFound, "order not found"));
      }
      var prev := byId[o.id].status;
      var next := o.status;
      var key := KeyOf(o);
      if prev == OrderCreated && next != OrderCreated {
        if DraftFor(key) == o.id {
          activeDraft := activeDraft - {key};
        }
      }
      if prev != OrderCreated && next == OrderCreated {
        var existing := DraftFor(key);
        if existing != "" && existing != o.id {
          return Some(New(CodeConflict, "active draft already exists"));
        }
        activeDraft := activeDraft[key := o.id];
      }
      byId := byId[o.id := o];
    }

    function GetByID(id: string): (r: Result<Order>)
      reads this
      ensures Valid() && r.Ok? ==> r.value.id == id && r.value.userId != "" && r.value.storeId != ""
    {
      GetById(byId, id, "order not found")
    }

    /** The CREATED order indexed under (userId, storeId), if it is still
        stored and still CREATED. */
    function GetActiveDraftByUserIDAndStoreID(userId: string, storeId: string): (r: Result<Order>)
      reads this
      ensures r.Ok? ==> r.value.status == OrderCreated
      ensures r.Ok? && DraftIndexExact() ==> r.value.userId == userId && r.value.storeId == storeId
      ensures r.Err? ==> r.error in {New(CodeInvalid, "missing userId"), New(CodeInvalid, "missing storeId"),
                                     New(CodeNotFound, "active draft not found")}
    {
      if userId == "" then Err(New(CodeInvalid, "missing userId"))
      else if storeId == "" then Err(New(CodeInvalid, "missing storeId"))
      else
        var id := DraftFor(DraftKey(userId, storeId));
        if id == "" then Err(New(CodeNotFound, "active draft not found"))
        else if id !in byId || byId[id].status != OrderCreated then Err(New(CodeNotFound, "active draft not found"))
        else Ok(byId[id])
    }
  }

  /** Under the index invariant there is at most one CREATED order per
      (user, store). */
  lemma SingleActiveDraft(repo: OrderRepo, a: string, b: string)
    requires repo.DraftIndexExact()
    requires a in repo.byId && b in repo.byId
    requires repo.byId[a].status == OrderCreated && repo.byId[b].status == OrderCreated
    requires KeyOf(repo.byId[a]) == KeyOf(repo.byId[b])
    ensures a == b
  {
  }

  /** The draft lookup finds a CREATED order exactly when one is stored for
      that (user, store), and then it finds that one. */
  lemma ActiveDraftLookupComplete(repo: OrderRepo, userId: string, storeId: string)
    requires repo.Valid() && repo.DraftIndexExact()
    requires userId != "" && storeId != ""
    ensures repo.GetActiveDraftByUserIDAndStoreID(userId, storeId).Ok? <==>
              exists id :: id in repo.byId && repo.byId[id].status == OrderCreated && KeyOf(repo.byId[id]) == DraftKey(userId, storeId)
    ensures forall id :: id in repo.byId && repo.byId[id].status == OrderCreated && KeyOf(repo.byId[id]) == DraftKey(userId, storeId) ==>
              repo.GetActiveDraftByUserIDAndStoreID(userId, storeId) == Ok(repo.byId[id])
  {
    var k := DraftKey(userId, storeId);
    if repo.GetActiveDraftByUserIDAndStoreID(userId, storeId).Ok? {
      var id := repo.activeDraft[k];
      assert id in repo.byId && repo.byId[id].status == OrderCreated && KeyOf(repo.byId[id]) == k;
    }
    if exists id :: id in repo.byId && repo.byId[id].status == OrderCreated && KeyOf(repo.byId[id]) == k {
      var id :| id in repo.byId && repo.byId[id].status == OrderCreated && KeyOf(repo.byId[id]) == k;
      assert repo.DraftFor(k) == id;
      assert repo.GetActiveDraftByUserIDAndStoreID(userId, storeId) == Ok(repo.byId[id]);
    }
  }
}
