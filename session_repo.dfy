/** The in-memory session repository
    (internal/infra/db/repository/session/session_in_memory.go): sessions by
    id (the token's jti). Times are integer clock readings with 0 standing
    for Go's zero time; `clock` is what time.Now() would return. */
module SessionRepo {
  import opened Errx

  /** The session record (internal/domain/entity/session.go). */
  datatype Session = Session(
    id: string,
    userId: string,
    role: string,
    expiresAt: int,
    revokedAt: Option<int>,
    createdAt: int)

  /** Save's field checks, in the order they apply. */
  function CheckSession(s: Session): (r: Option<Error>)
    ensures r.None? <==> s.id != "" && s.userId != "" && s.expiresAt != 0
    ensures r.Some? ==> CodeOf(r.value) == CodeInvalid
  {
    if s.id == "" then Some(New(CodeInvalid, "missing session id"))
    else if s.userId == "" then Some(New(CodeInvalid, "missing user id"))
    else if s.expiresAt == 0 then Some(New(CodeInvalid, "missing expiresAt"))
    else None
  }

  /** The session as Save stores it: a zero CreatedAt becomes the clock. */
  function Stamped(s: Session, clock: int): (r: Session)
    ensures s.createdAt != 0 ==> r == s
    ensures s.createdAt == 0 ==> r == s.(createdAt := clock)
  {
    if s.createdAt == 0 then s.(createdAt := clock) else s
  }

  /** The sessions still alive at `now`: those expiring strictly after it. */
  function Unexpired(byId: map<string, Session>, now: int): (r: map<string, Session>)
    ensures forall id :: id in r <==> id in byId && byId[id].expiresAt > now
    ensures forall id :: id in r ==> r[id] == byId[id]
  {
    map id | id in byId && byId[id].expiresAt > now :: byId[id]
  }

  class SessionRepo {
    var byId: map<string, Session>

    /** Every stored session passed Save's checks and is keyed by its id. */
    ghost predicate Valid()
      reads this
    {
      forall id :: id in byId ==> byId[id].id == id && CheckSession(byId[id]).None?
    }

    constructor()
      ensures Valid() && byId == map[]
    {
      byId := map[];
    }

    /** An upsert: a session with a known id replaces the stored one. */
    method Save(s: Session, clock: int) returns (err: Option<Error>)
      requires Valid()
      modifies this
      ensures Valid()
      ensures err == CheckSession(s)
      ensures err.Some? ==> byId == old(byId)
      ensures err.None? ==> byId == old(byId)[s.id := Stamped(s, clock)]
    {
      err := CheckSession(s);
      if err.Some? {
        return;
      }
      byId := byId[s.id := Stamped(s, clock)];
    }

    function GetByID(id: string): (r: Result<Session>)
      reads this
      ensures id == "" ==> r == Err(New(CodeInvalid, "missing session id"))
      ensures id != "" && id !in byId ==> r == Err(New(CodeNotFound, "session not found"))
      ensures r.Ok? <==> id != "" && id in byId
      ensures r.Ok? ==> r.value == byId[id]
    {
      if id == "" then Err(New(CodeInvalid, "missing session id"))
      else if id !in byId then Err(New(CodeNotFound, "session not found"))
      else Ok(byId[id])
    }

    /** Removes every session whose expiry is at or before `now` (the clock
        when `now` is the zero time), visiting the ids in no fixed order. */
    method DeleteExpired(now: int, clock: int)
      requires Valid()
      modifies this
      ensures Valid()
      ensures byId == Unexpired(old(byId), if now == 0 then clock else now)
    {
      var cutoff := if now == 0 then clock else now;
      var todo := byId.Keys;
      while todo != {}
        invariant todo <= old(byId).Keys
        invariant forall id :: id in byId <==> id in old(byId) && (id in todo || old(byId)[id].expiresAt > cutoff)
        invariant forall id :: id in byId ==> byId[id] == old(byId)[id]
        decreases |todo|
      {
        var id :| id in todo;
        if byId[id].expiresAt <= cutoff {
          byId := byId - {id};
        }
        todo := todo - {id};
      }
    }
  }

  /** Sweeping twice at the same time removes nothing more. */
  lemma UnexpiredIdempotent(byId: map<string, Session>, now: int)
    ensures Unexpired(Unexpired(byId, now), now) == Unexpired(byId, now)
  {
  }

  /** A sweep at t1 followed by one at t2 is one sweep at the later time. */
  lemma UnexpiredCompose(byId: map<string, Session>, t1: int, t2: int)
    ensures Unexpired(Unexpired(byId, t1), t2) == Unexpired(byId, if t1 <= t2 then t2 else t1)
  {
  }

  /** A session saved with an expiry after the sweep time survives it, and one
      expiring at or before it does not. */
  lemma SaveThenSweep(byId: map<string, Session>, s: Session, clock: int, now: int)
    ensures s.id in Unexpired(byId[s.id := Stamped(s, clock)], now) <==> s.expiresAt > now
  {
  }
}
