/**
 * The user service's business layer: paging defaults, argument validation
 * and the mapping of repository errors.  The repository behind it (SQL
 * queries, timestamps) is an abstract collaborator, and every call the
 * service makes to it is recorded so that "not called" can be stated.
 */
module UserService {
  import opened Wrappers
  import opened Errors

  /** A user row of the user service. */
  datatype User = User(id: int, name: string, createdAt: int, updatedAt: int)

  /** Go's zero value `User{}`, returned beside every error. */
  const ZeroUser := User(0, "", 0, 0)

  /** A Go result pair `(value, err)`; `err` is None for nil. */
  datatype Pair<T> = Pair(value: T, err: Option<Error>)

  /** The repository the service delegates to. */
  datatype Repository = Repository(
    getAllUsers: (int, int) -> Pair<seq<User>>,
    getUserById: int -> Pair<User>,
    createUser: string -> Pair<User>)

  /** One call into the repository. */
  datatype RepoCall = GetAllUsersCall(pageNum: int, pageSize: int) | GetUserByIdCall(id: int) | CreateUserCall(name: string)

  /** A service answer together with the repository calls made to produce it. */
  datatype Reply<T> = Reply(value: T, err: Option<Error>, calls: seq<RepoCall>)

  const DefaultPageNum := 1
  const DefaultPageSize := 10

  /** The paging GetAllUsers actually requests: non-positive values fall back to the defaults. */
  function EffectivePaging(pageNum: int, pageSize: int): (p: (int, int))
    ensures p.0 >= 1 && p.1 >= 1
    ensures pageNum > 0 ==> p.0 == pageNum
    ensures pageSize > 0 ==> p.1 == pageSize
    ensures pageNum <= 0 ==> p.0 == DefaultPageNum
    ensures pageSize <= 0 ==> p.1 == DefaultPageSize
  {
    (if pageNum <= 0 then DefaultPageNum else pageNum, if pageSize <= 0 then DefaultPageSize else pageSize)
  }

  /** Defaulting is idempotent: the effective paging is its own effective paging. */
  lemma EffectivePagingIdempotent(pageNum: int, pageSize: int)
    ensures var p := EffectivePaging(pageNum, pageSize); EffectivePaging(p.0, p.1) == p
  {
  }

  /** GetAllUsers: one repository call with the effective paging, whose answer is returned unchanged. */
  function GetAllUsers(repo: Repository, pageNum: int, pageSize: int): (r: Reply<seq<User>>)
    ensures |r.calls| == 1 && r.calls[0].GetAllUsersCall?
    ensures (r.calls[0].pageNum, r.calls[0].pageSize) == EffectivePaging(pageNum, pageSize)
    ensures Pair(r.value, r.err) == repo.getAllUsers(r.calls[0].pageNum, r.calls[0].pageSize)
  {
    var p := EffectivePaging(pageNum, pageSize);
    var answer := repo.getAllUsers(p.0, p.1);
    Reply(answer.value, answer.err, [GetAllUsersCall(p.0, p.1)])
  }

  /** The service's view of a repository error: a "user not found" text becomes the sentinel. */
  function MapLookupError(e: Error): (m: Error)
    ensures Text(e) == NotFoundText ==> m == Known(UserNotFound)
    ensures Text(e) != NotFoundText ==> m == e
    ensures Text(m) == Text(e)
  {
    if Text(e) == NotFoundText then Known(UserNotFound) else e
  }

  /** Mapping is idempotent: a mapped error maps to itself. */
  lemma MapLookupErrorIdempotent(e: Error)
    ensures MapLookupError(MapLookupError(e)) == MapLookupError(e)
  {
  }

  /**
   * GetUserByID: a non-positive id is rejected without consulting the
   * repository; otherwise the repository's user is returned, or its error
   * after mapping, beside the zero user.
   */
  function GetUserById(repo: Repository, id: int): (r: Reply<User>)
    ensures id <= 0 ==> r == Reply(ZeroUser, Some(Known(InvalidArgument)), [])
    ensures id > 0 ==> r.calls == [GetUserByIdCall(id)]
    ensures id > 0 && repo.getUserById(id).err.None? ==>
      r.value == repo.getUserById(id).value && r.err.None?
    ensures id > 0 && repo.getUserById(id).err.Some? ==>
      r.value == ZeroUser && r.err == Some(MapLookupError(repo.getUserById(id).err.value))
  {
    if id <= 0 then
      Reply(ZeroUser, Some(Known(InvalidArgument)), [])
    else
      var answer := repo.getUserById(id);
      match answer.err
      case Some(e) => Reply(ZeroUser, Some(MapLookupError(e)), [GetUserByIdCall(id)])
      case None => Reply(answer.value, None, [GetUserByIdCall(id)])
  }

  /** An error reported for a valid id is never the invalid-argument sentinel unless the repository said so. */
  lemma GetUserByIdErrorsOnlyFromRepository(repo: Repository, id: int)
    requires id > 0
    ensures GetUserById(repo, id).err.Some? <==> repo.getUserById(id).err.Some?
    ensures GetUserById(repo, id).err == Some(Known(InvalidArgument)) ==>
      repo.getUserById(id).err == Some(Known(InvalidArgument))
  {
  }

  /** CreateUser: an empty name is rejected without a repository call; otherwise the repository decides. */
  function CreateUser(repo: Repository, name: string): (r: Reply<User>)
    ensures name == "" ==> r == Reply(ZeroUser, Some(Known(RequiredField)), [])
    ensures name != "" ==> r.calls == [CreateUserCall(name)]
    ensures name != "" ==> Pair(r.value, r.err) == repo.createUser(name)
  {
    if name == "" then
      Reply(ZeroUser, Some(Known(RequiredField)), [])
    else
      var answer := repo.createUser(name);
      Reply(answer.value, answer.err, [CreateUserCall(name)])
  }
}
