/**
 * The gateway's HTTP handlers for listings, as pure functions from parsed
 * request inputs to a response.  What decides the response is modelled:
 * parameter defaulting and validation, the order of the checks, whether the
 * use case is invoked and with what, and the status code; header and JSON
 * writing are not.
 */
module ListingHandler {
  import opened Wrappers
  import opened Errors
  import opened Domain

  /**
   * A query parameter as the handler sees it: absent or empty, an integer
   * `strconv.Atoi` accepts, or text it rejects.
   */
  datatype Param = Absent | Parsed(n: int) | Unparseable

  const StatusOK := 200
  const StatusCreated := 201
  const StatusBadRequest := 400
  const StatusInternalServerError := 500

  const DefaultPageNum := 1
  const DefaultPageSize := 10

  /** What the listings use case is asked for. */
  datatype ListingsQuery = ListingsQuery(pageNum: int, pageSize: int, userFilter: Option<int>)

  /** A decoded create-listing body; missing JSON fields decode to zero values. */
  datatype CreateRequest = CreateRequest(userId: int, listingType: string, price: int)

  /** The response body: the listings, the created listing, or an error message. */
  datatype Body = ListingsBody(listings: seq<ListingWithUser>) | ListingBody(listing: Listing) | ErrorBody(message: string)

  datatype Response = Response(status: int, body: Body)

  /** A handled request: the response, and the use-case invocation made, if any. */
  datatype Handled<A> = Handled(response: Response, invoked: Option<A>)

  function BadRequest(message: string): Response
  {
    Response(StatusBadRequest, ErrorBody(message))
  }

  /** page_num and page_size: absent or non-positive means the default; unparseable is rejected. */
  function PagingParam(p: Param, default: int): (r: Option<int>)
    requires default >= 1
    ensures r.Some? ==> r.value >= 1
    ensures r.None? <==> p.Unparseable?
    ensures p.Parsed? && p.n > 0 ==> r == Some(p.n)
    ensures p.Absent? || (p.Parsed? && p.n <= 0) ==> r == Some(default)
  {
    match p
    case Absent => Some(default)
    case Parsed(n) => Some(if n > 0 then n else default)
    case Unparseable => None
  }

  /** user_id: absent means no filter; any integer is a filter; unparseable is rejected. */
  function FilterParam(p: Param): (r: Option<Option<int>>)
    ensures r.None? <==> p.Unparseable?
    ensures p.Absent? ==> r == Some(None)
    ensures p.Parsed? ==> r == Some(Some(p.n))
  {
    match p
    case Absent => Some(None)
    case Parsed(n) => Some(Some(n))
    case Unparseable => None
  }

  /**
   * The query of GET /listings, checked in the order page_num, page_size,
   * user_id; the first bad parameter decides the rejection.
   */
  function ParseListingsQuery(pageNum: Param, pageSize: Param, userId: Param): (r: Result<ListingsQuery, Response>)
    ensures r.Success? <==> !pageNum.Unparseable? && !pageSize.Unparseable? && !userId.Unparseable?
    ensures r.Success? ==> r.value.pageNum >= 1 && r.value.pageSize >= 1
    ensures r.Success? ==>
      && Some(r.value.pageNum) == PagingParam(pageNum, DefaultPageNum)
      && Some(r.value.pageSize) == PagingParam(pageSize, DefaultPageSize)
      && Some(r.value.userFilter) == FilterParam(userId)
    ensures pageNum.Unparseable? ==> r == Failure(BadRequest("Invalid page_num parameter"))
    ensures !pageNum.Unparseable? && pageSize.Unparseable? ==> r == Failure(BadRequest("Invalid page_size parameter"))
    ensures !pageNum.Unparseable? && !pageSize.Unparseable? && userId.Unparseable? ==>
      r == Failure(BadRequest("Invalid user_id parameter"))
  {
    match (PagingParam(pageNum, DefaultPageNum), PagingParam(pageSize, DefaultPageSize), FilterParam(userId))
    case (None, _, _) => Failure(BadRequest("Invalid page_num parameter"))
    case (Some(_), None, _) => Failure(BadRequest("Invalid page_size parameter"))
    case (Some(_), Some(_), None) => Failure(BadRequest("Invalid user_id parameter"))
    case (Some(n), Some(s), Some(f)) => Success(ListingsQuery(n, s, f))
  }

  /** Rendering a valid query back as parameters and parsing it gives the same query. */
  lemma ParseListingsQueryRoundTrip(q: ListingsQuery)
    requires q.pageNum >= 1 && q.pageSize >= 1
    ensures ParseListingsQuery(Parsed(q.pageNum), Parsed(q.pageSize),
      if q.userFilter.Some? then Parsed(q.userFilter.value) else Absent) == Success(q)
  {
  }

  /**
   * GET /listings: reject a bad query with 400 without invoking the use
   * case; otherwise invoke it once and answer 500 on its error and 200 with
   * its listings on success.
   */
  function GetListings(pageNum: Param, pageSize: Param, userId: Param,
                       useCase: ListingsQuery -> Result<seq<ListingWithUser>, Error>): (h: Handled<ListingsQuery>)
    ensures h.invoked.Some? <==> ParseListingsQuery(pageNum, pageSize, userId).Success?
    ensures h.invoked.Some? ==> h.invoked.value == ParseListingsQuery(pageNum, pageSize, userId).value
    ensures h.invoked.Some? ==> h.invoked.value.pageNum >= 1 && h.invoked.value.pageSize >= 1
    ensures h.invoked.None? ==> h.response == ParseListingsQuery(pageNum, pageSize, userId).error
    ensures h.invoked.Some? && useCase(h.invoked.value).Failure? ==>
      h.response == Response(StatusInternalServerError, ErrorBody("Failed to fetch listings"))
    ensures h.invoked.Some? && useCase(h.invoked.value).Success? ==>
      h.response == Response(StatusOK, ListingsBody(useCase(h.invoked.value).value))
  {
    match ParseListingsQuery(pageNum, pageSize, userId)
    case Failure(rejection) => Handled(rejection, None)
    case Success(q) =>
      match useCase(q)
      case Failure(_) => Handled(Response(StatusInternalServerError, ErrorBody("Failed to fetch listings")), Some(q))
      case Success(listings) => Handled(Response(StatusOK, ListingsBody(listings)), Some(q))
  }

  /**
   * The create-listing body checks, in order: a decodable body, a positive
   * user_id, a non-empty listing_type, a positive price.
   */
  function ValidateCreateRequest(body: Option<CreateRequest>): (r: Result<CreateRequest, Response>)
    ensures r.Success? <==> body.Some? && body.value.userId > 0 && body.value.listingType != "" && body.value.price > 0
    ensures r.Success? ==> r.value == body.value
    ensures body.None? ==> r == Failure(BadRequest("Invalid request body"))
    ensures body.Some? && body.value.userId <= 0 ==> r == Failure(BadRequest("Invalid user_id"))
    ensures body.Some? && body.value.userId > 0 && body.value.listingType == "" ==>
      r == Failure(BadRequest("listing_type is required"))
    ensures body.Some? && body.value.userId > 0 && body.value.listingType != "" && body.value.price <= 0 ==>
      r == Failure(BadRequest("Invalid price"))
  {
    match body
    case None => Failure(BadRequest("Invalid request body"))
    case Some(req) =>
      if req.userId <= 0 then Failure(BadRequest("Invalid user_id"))
      else if req.listingType == "" then Failure(BadRequest("listing_type is required"))
      else if req.price <= 0 then Failure(BadRequest("Invalid price"))
      else Success(req)
  }

  /**
   * POST /listings: reject an invalid body with 400 without invoking the use
   * case; otherwise invoke it once and answer 500 on its error and 201 with
   * the created listing on success.
   */
  function CreateListing(body: Option<CreateRequest>, useCase: CreateRequest -> Result<Listing, Error>): (h: Handled<CreateRequest>)
    ensures h.invoked.Some? <==> ValidateCreateRequest(body).Success?
    ensures h.invoked.Some? ==> h.invoked == body
    ensures h.invoked.None? ==> h.response == ValidateCreateRequest(body).error
    ensures h.invoked.Some? && useCase(h.invoked.value).Failure? ==>
      h.response == Response(StatusInternalServerError, ErrorBody("Failed to create listing"))
    ensures h.invoked.Some? && useCase(h.invoked.value).Success? ==>
      h.response == Response(StatusCreated, ListingBody(useCase(h.invoked.value).value))
  {
    match ValidateCreateRequest(body)
    case Failure(rejection) => Handled(rejection, None)
    case Success(req) =>
      match useCase(req)
      case Failure(_) => Handled(Response(StatusInternalServerError, ErrorBody("Failed to create listing")), Some(req))
      case Success(listing) => Handled(Response(StatusCreated, ListingBody(listing)), Some(req))
  }

  /** Every create the handler lets through names a positive user, a listing type and a positive price. */
  lemma CreateListingInvokesOnlyValidRequests(body: Option<CreateRequest>, useCase: CreateRequest -> Result<Listing, Error>)
    ensures var h := CreateListing(body, useCase);
      h.invoked.Some? ==> h.invoked.value.userId > 0 && h.invoked.value.listingType != "" && h.invoked.value.price > 0
  {
  }
}
