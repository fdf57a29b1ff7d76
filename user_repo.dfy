/** The in-memory user repository
    (internal/infra/db/repository/user/user_in_memory.go): users by id, and
    two unique indexes from CPF and from e-mail to the user's id. Its errors
    are plain Go errors, not errx ones. Timestamps are not modelled. */
module UserRepo {
  import opened Errx

  /** The user record (internal/domain/entity/user.go); status and role are
      Go string types, kept as strings. */
  datatype User = User(
    id: string,
    name: string,
    cpf: string,
    email: string,
    phone: string,
    status: string,
    role: string,
    password: string)

  const UserStatusActive: string := "active"
  const UserRoleCostumer: string := "costumer"

  const ErrUserAlreadyExists: Error := Plain("user already exists", None)
  const ErrUserNotFound: Error := Plain("user not found", None)

  /** Create's field checks, in the order they apply. */
  function CheckUserFields(u: User): (r: Option<Error>)
    ensures r.None? <==> u.id != "" && u.cpf != "" && u.email != ""
    ensures r.Some? ==> r.value != ErrUserAlreadyExists && CodeOf(r.value) == CodeInternal
  {
    if u.id == "" then Some(Plain("missing id", None))
    else if u.cpf == "" then Some(Plain("missing cpf", None))
    else if u.email == "" then Some(Plain("missing email", None))
    else None
  }

  /** Create stores an empty status as active and an empty role as costumer. */
  function WithDefaults(u: User): (r: User)
    ensures r.status != "" && r.role != ""
    ensures u.status != "" ==> r.status == u.status
    ensures u.role != "" ==> r.role == u.role
    ensures r == u.(status := r.status, role := r.role)
  {
    u.(status := if u.status == "" then UserStatusActive else u.status,
       role := if u.role == "" then UserRoleCostumer else u.role)
  }

  /** The lookup shared by GetByCpf and GetByMail: through a unique index to
      the stored user. */
  function LookupVia(index: map<string, string>, byId: map<string, User>, key: string, missing: string): (r: Result<User>)
    ensures key == "" ==> r == Err(Plain(missing, None))
    ensures key != "" && r.Err? ==> r == Err(ErrUserNotFound)
    ensures r.Ok? <==> key != "" && key in index && index[key] != "" && index[key] in byId
    ensures r.Ok? ==> r.value == byId[index[key]]
  {
    if key == "" then Err(Plain(missing, None))
    else if key !in index || index[key] == "" then Err(ErrUserNotFound)
    else if index[key] !in byId then Err(ErrUserNotFound)
    else Ok(byId[index[key]])
  }

  class UserRepo {
    var byId: map<string, User>
    var byCpf: map<string, string>
    var byMail: map<string, string>

    /** Records are keyed by their id and passed Create's checks; each index
        maps a CPF (an e-mail) to the one stored user that has it, and every
        stored user is indexed under both. */
    ghost predicate Valid()
      reads this
    {
      && (forall id :: id in byId ==> byId[id].id == id && CheckUserFields(byId[id]).None?)
      && (forall c :: c in byCpf ==> byCpf[c] in byId && byId[byCpf[c]].cpf == c)
      && (forall m :: m in byMail ==> byMail[m] in byId && byId[byMail[m]].email == m)
      && (forall id :: id in byId ==> byId[id].cpf in byCpf && byCpf[byId[id].cpf] == id)
      && (forall id :: id in byId ==> byId[id].email in byMail && byMail[byId[id].email] == id)
    }

    /** The error Create returns for u in the current state, if any. */
    function CreateError(u: User): (r: Option<Error>)
      reads this
      ensures CheckUserFields(u).Some? ==> r == CheckUserFields(u)
      ensures CheckUserFields(u).None? ==>
                (r.None? <==> u.id !in byId && (u.cpf !in byCpf || byCpf[u.cpf] == "") && (u.email !in byMail || byMail[u.email] == ""))
      ensures CheckUserFields(u).None? && r.Some? ==> r.value == ErrUserAlreadyExists
    {
      if CheckUserFields(u).Some? then CheckUserFields(u)
      else if u.id in byId then Some(ErrUserAlreadyExists)
      else if u.cpf in byCpf && byCpf[u.cpf] != "" then Some(ErrUserAlreadyExists)
      else if u.email in byMail && byMail[u.email] != "" then Some(ErrUserAlreadyExists)
      else None
    }

    constructor()
      ensures Valid() && byId == map[] && byCpf == map[] && byMail == map[]
    {
      byId := map[];
      byCpf := map[];
      byMail := map[];
    }

    method Create(u: User) returns (err: Option<Error>)
      requires Valid()
      modifies this
      ensures Valid()
      ensures err == old(CreateError(u))
      ensures err.Some? ==> byId == old(byId) && byCpf == old(byCpf) && byMail == old(byMail)
      ensures err.None? ==> byId == old(byId)[u.id := WithDefaults(u)]
      ensures err.None? ==> byCpf == old(byCpf)[u.cpf := u.id] && byMail == old(byMail)[u.email := u.id]
      ensures err.None? ==> GetByCpf(u.cpf) == Ok(WithDefaults(u)) && GetByMail(u.email) == Ok(WithDefaults(u))
    {
      err := CreateError(u);
      if err.Some? {
        return;
      }
      var n := WithDefaults(u);
      byId := byId[n.id := n];
      byCpf := byCpf[n.cpf := n.id];
      byMail := byMail[n.email := n.id];
    }

    function GetByID(id: string): (r: Result<User>)
      reads this
      ensures id == "" ==> r == Err(Plain("missing id", None))
      ensures id != "" && id !in byId ==> r == Err(ErrUserNotFound)
      ensures r.Ok? <==> id != "" && id in byId
      ensures r.Ok? ==> r.value == byId[id]
    {
      if id == "" then Err(Plain("missing id", None))
      else if id !in byId then Err(ErrUserNotFound)
      else Ok(byId[id])
    }

    function GetByCpf(cpf: string): (r: Result<User>)
      reads this
      ensures Valid() && r.Ok? ==> r.value.cpf == cpf
    {
      LookupVia(byCpf, byId, cpf, "missing cpf")
    }

    function GetByMail(mail: string): (r: Result<User>)
      reads this
      ensures Valid() && r.Ok? ==> r.value.email == mail
    {
      LookupVia(byMail, byId, mail, "missing email")
    }
  }

  /** No two stored users share a CPF or an e-mail. */
  lemma UsersUnique(repo: UserRepo, a: string, b: string)
    requires repo.Valid()
    requires a in repo.byId && b in repo.byId
    requires repo.byId[a].cpf == repo.byId[b].cpf || repo.byId[a].email == repo.byId[b].email
    ensures a == b
  {
  }

  /** GetByCpf finds a user exactly when one with that CPF is stored, and
      then it finds that one; likewise GetByMail by e-mail. */
  lemma LookupsComplete(repo: UserRepo, id: string)
    requires repo.Valid() && id in repo.byId
    ensures repo.GetByCpf(repo.byId[id].cpf) == Ok(repo.byId[id])
    ensures repo.GetByMail(repo.byId[id].email) == Ok(repo.byId[id])
  {
  }
}
