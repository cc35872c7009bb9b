/**
 * The gateway's client for the user service.  The HTTP request, the status
 * check and the JSON decoding are one abstract page source; what is modelled
 * is the conversion to domain users and the lookup by id, which reads a
 * single fixed page and searches it.
 */
module UserRepository {
  import opened Wrappers
  import opened Errors
  import opened Domain

  /** A user as decoded from the user service's `GET /users` response. */
  datatype WireUser = WireUser(id: int, name: string, createdAt: int, updatedAt: int)

  /**
   * `GET /users?page_num=..&page_size=..` followed by decoding.  Transport
   * errors, a non-200 status and a malformed body are all its Failure.
   */
  type PageSource = (int, int) -> Result<seq<WireUser>, Error>

  /** The only page the lookup by id ever reads. */
  const LookupPageNum := 1
  const LookupPageSize := 100

  /** The error of a lookup whose id is not on the page. */
  const NotFound := Msg(NotFoundText)

  function ToDomainUser(w: WireUser): User
  {
    User(w.id, w.name, w.createdAt, w.updatedAt)
  }

  function ToWireUser(u: User): WireUser
  {
    WireUser(u.id, u.name, u.createdAt, u.updatedAt)
  }

  /** The conversion loop of GetUsers: append one domain user per decoded user. */
  function ToDomainUsers(ws: seq<WireUser>): (us: seq<User>)
    ensures |us| == |ws|
    ensures forall i :: 0 <= i < |ws| ==>
      && us[i].id == ws[i].id
      && us[i].name == ws[i].name
      && us[i].createdAt == ws[i].createdAt
      && us[i].updatedAt == ws[i].updatedAt
  {
    if ws == [] then [] else ToDomainUsers(ws[..|ws| - 1]) + [ToDomainUser(ws[|ws| - 1])]
  }

  function ToWireUsers(us: seq<User>): seq<WireUser>
  {
    seq(|us|, i requires 0 <= i < |us| => ToWireUser(us[i]))
  }

  /** The conversion loses nothing: turning the users back into wire records gives the decoded page. */
  lemma ConversionRoundTrip(ws: seq<WireUser>)
    ensures ToWireUsers(ToDomainUsers(ws)) == ws
  {
  }

  /** GetUsers: the page source's error is returned as it is; a page is converted. */
  function GetUsers(source: PageSource, pageNum: int, pageSize: int): (r: Result<seq<User>, Error>)
    ensures source(pageNum, pageSize).Failure? ==> r == Failure(source(pageNum, pageSize).error)
    ensures source(pageNum, pageSize).Success? ==>
      r.Success? && ToWireUsers(r.value) == source(pageNum, pageSize).value
  {
    match source(pageNum, pageSize)
    case Failure(e) => Failure(e)
    case Success(ws) =>
      ConversionRoundTrip(ws);
      Success(ToDomainUsers(ws))
  }

  /** `k` is the position of the first user on the page whose id is `id`. */
  ghost predicate FirstWithId(users: seq<User>, id: int, k: int)
  {
    && 0 <= k < |users|
    && users[k].id == id
    && forall j :: 0 <= j < k ==> users[j].id != id
  }

  /** The search loop of GetUserByID, from position `from` onwards. */
  function IndexOfId(users: seq<User>, id: int, from: nat): (r: Option<nat>)
    requires from <= |users|
    ensures r.Some? ==> from <= r.value < |users| && users[r.value].id == id
    ensures forall j :: from <= j < (if r.Some? then r.value else |users|) ==> users[j].id != id
    decreases |users| - from
  {
    if from == |users| then None
    else if users[from].id == id then Some(from)
    else IndexOfId(users, id, from + 1)
  }

  /**
   * GetUserByID: read page 1 of size 100 and return its first user with the
   * requested id.  Users beyond that page are never found.
   */
  function GetUserById(source: PageSource, id: int): (r: Result<User, Error>)
    ensures source(LookupPageNum, LookupPageSize).Failure? ==>
      r == Failure(source(LookupPageNum, LookupPageSize).error)
    ensures source(LookupPageNum, LookupPageSize).Success? ==>
      var page := ToDomainUsers(source(LookupPageNum, LookupPageSize).value);
      && (r.Success? <==> exists k :: 0 <= k < |page| && page[k].id == id)
      && (r.Success? ==> exists k :: FirstWithId(page, id, k) && r.value == page[k])
      && (r.Failure? ==> r.error == NotFound)
    ensures r.Success? ==> r.value.id == id
  {
    match GetUsers(source, LookupPageNum, LookupPageSize)
    case Failure(e) => Failure(e)
    case Success(users) =>
      match IndexOfId(users, id, 0)
      case Some(k) => Success(users[k])
      case None => Failure(NotFound)
  }

  /** The lookup consults exactly one page: sources that agree on it give the same answer. */
  lemma GetUserByIdReadsOnlyLookupPage(s1: PageSource, s2: PageSource, id: int)
    requires s1(LookupPageNum, LookupPageSize) == s2(LookupPageNum, LookupPageSize)
    ensures GetUserById(s1, id) == GetUserById(s2, id)
  {
  }
}
