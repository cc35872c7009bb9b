# Listing enrichment gateway — a verified Dafny model

This project models the core of a small read-aggregation gateway (`public-api`) and of the
user service behind it (`user-svc`). A listings request fetches one page of listings. It then
attaches to each listing the user it references. Each distinct user is fetched at most once per
call, and fetched users are remembered in a cache shared by all calls. The model covers:

- the listing use case: `GetListings` (deduplication, cache check and store, barrier,
  first error, ordered join) and `CreateListing` (the user must exist before the create);
- the gateway's user repository: the conversion of decoded users, and the lookup by id,
  which searches one fixed page;
- the user service's paging defaults, argument validation and error mapping;
- the listing handlers' query and body validation, defaulting and status codes.

Modules, one per source file or concern:

| module | file | models |
|---|---|---|
| `Wrappers` | wrappers.dfy | `Option`, `Result` |
| `Errors` | errors.dfy | Go error values: `errors.New`, `%w` wrapping, the sentinels, `err.Error()` |
| `Domain` | domain.dfy | `User`, `Listing`, `ListingWithUser` of `public-api/domain/model.go` |
| `UserRepository` | user_repository.dfy | `public-api/repository/user_repository.go` |
| `ListingUseCase` | listing_usecase.dfy | `public-api/usecase/listing_usecase.go` |
| `UserService` | user_service.dfy | `user-svc/service.go`, with `user-svc/model.go`'s `User` |
| `ListingHandler` | listing_handler.dfy | `public-api/handlers/listing_handler.go` |
| `Gateway` | gateway.dfy | the wiring in `public-api/main.go`: the use case looks users up through the repository |

How the model reads the source:

- **Concurrency as a fold.** `GetListings` starts one goroutine per distinct user id. The
  goroutines write disjoint keys under a mutex, and their errors are read only after
  `wg.Wait()`. So the observable behaviour is a sequential fold (`ResolveAll`) over the
  distinct ids in some order. That order is the parameter `order`, which must list each
  distinct id once (`OrdersPage`). The order decides only which error is reported and the
  order of the entries in `Outcome.fetched`: `GetListingsOrderIndependent` proves that the
  cache, the set and number of fetched ids, success, and a successful result do not depend on
  it. "The first error from the channel" is the first failure in that order.
- **State threaded explicitly.** The process-wide `sync.Map` is a `map<int, User>`. It is
  passed in and returned (`Outcome.cache`).
- **Recorded calls.** Upstream user fetches are recorded in `Outcome.fetched`, in the order
  they are made. The user service records its repository calls in `Reply.calls`. The
  handlers record their use-case invocation in `Handled.invoked`. `CreateListing` records
  whether the create was issued (`Created.createCalled`).
- **Abstract collaborators.** The upstream sources are function parameters returning `Result`:
  the listing page fetch, the listing create, the user page fetch, and the SQL repository of
  the user service. Each one's transport, status and decoding failures are its `Failure`.
- **Parsed parameters.** A query parameter is `Absent` (missing or empty), `Parsed(n)` or
  `Unparseable`. This is what `strconv.Atoi` leaves the handler with. A request body is
  `None` when it does not decode.

Behaviours of the code that the model keeps as written:

- Creating a listing for a nonexistent user answers 500. The use case wraps whatever error
  the user lookup returned, as `invalid user_id: …`, and the handler answers every use-case
  error with 500.
- The user lookup by id reads page 1 of size 100 of all users and searches it. A user beyond
  the first 100 is reported as "user not found", and `GetUserById` states exactly that.
- The cache's `Store` is unconditional. Within one call a key is written only after a miss,
  so no entry changes (`GetListingsCacheGrows`). Races between concurrent calls are left out
  (see below).

## Model

| member | source | states |
|---|---|---|
| `UserRepository.ToDomainUsers` | public-api/repository/user_repository.go:82-91 | the conversion keeps the count and the order, and copies id, name and both timestamps of every decoded user |
| `UserRepository.ConversionRoundTrip` | public-api/repository/user_repository.go:82-91 | the conversion loses nothing: converting back gives the decoded page |
| `UserRepository.GetUsers` | public-api/repository/user_repository.go:45-95 | a failed page fetch's error is returned unchanged; a fetched page is returned converted, and nothing else |
| `UserRepository.IndexOfId` | public-api/repository/user_repository.go:35-39 | the search finds the first position holding the id, and reports none only when no user has it |
| `UserRepository.GetUserById` | public-api/repository/user_repository.go:25-43 | reads page 1 of size 100; returns that page's error unchanged; otherwise succeeds iff a user on the page has the id, returns the first such user (so its id is the requested one), and fails with "user not found" otherwise, even when the user exists on a later page |
| `UserRepository.GetUserByIdReadsOnlyLookupPage` | public-api/repository/user_repository.go:29 | two sources that agree on page 1 of size 100 give the same lookup result: no other page is consulted |
| `ListingUseCase.UserIds` | public-api/usecase/listing_usecase.go:31-34 | the distinct ids are exactly the user ids some listing of the page references |
| `ListingUseCase.UserIdsBound` | public-api/usecase/listing_usecase.go:31-34 | a page has no more distinct user ids than listings |
| `ListingUseCase.ResolveUser` | public-api/usecase/listing_usecase.go:45-68 | one goroutine: a cached id is not fetched and adds its cached user to the call's map; a miss is fetched once; a failed resolution sends exactly one error, wrapped as "error fetching user data for listing", and stores nothing; a successful fetch is stored in the cache; the call's map receives the id's resolution whenever it succeeds |
| `ListingUseCase.ResolveAll` | public-api/usecase/listing_usecase.go:43-71 | running all goroutines fetches at most once per goroutine, and every error sent comes with a fetch |
| `ListingUseCase.ResolveAllFetched` | public-api/usecase/listing_usecase.go:43-68 | running the goroutines fetches exactly the ids that miss the cache, each once, in processing order; hits fetch nothing |
| `ListingUseCase.ResolveAllErrors` | public-api/usecase/listing_usecase.go:56-60 | the error channel receives one wrapped error per failed fetch, in processing order, and nothing for successes or hits |
| `ListingUseCase.ResolveAllCache` | public-api/usecase/listing_usecase.go:49-67 | the cache ends as it was, plus every successful fetch; failed fetches store nothing; existing entries are kept |
| `ListingUseCase.ResolveAllUsers` | public-api/usecase/listing_usecase.go:48-67 | the call's own map gets the cached user for a hit and the fetched user for a successful miss |
| `ListingUseCase.BatchFetched` | public-api/usecase/listing_usecase.go:43-68 | for one call, the fetch log has no duplicates and holds exactly the distinct page ids absent from the cache |
| `ListingUseCase.BatchErrors` | public-api/usecase/listing_usecase.go:56-77 | for one call, no error is reported iff every uncached id's fetch succeeds, and each reported error wraps the error of some failed fetch |
| `ListingUseCase.BatchCache` | public-api/usecase/listing_usecase.go:49-67 | for one call, the resulting cache is the start cache extended with the successful fetches of uncached page ids |
| `ListingUseCase.BatchUsers` | public-api/usecase/listing_usecase.go:48-67 | for one call, the map used by the join holds exactly the page ids whose cached or fetched user is available, with that user |
| `ListingUseCase.BatchResolvesIds` | public-api/usecase/listing_usecase.go:43-71 | whatever the goroutine order, the map used by the join equals the order-free resolution of the page's ids: the cached user for a hit, the fetched user for a successful miss, nothing for a failure |
| `ListingUseCase.Join` | public-api/usecase/listing_usecase.go:80-93 | the join succeeds iff every listing's user is known; then it has one entry per listing, in page order, holding the listing unchanged and its user; otherwise it fails with "user not found for listing" naming the first listing without a user |
| `ListingUseCase.GetListings` | public-api/usecase/listing_usecase.go:23-94 | a failed page fetch is returned with no user fetch and the cache unchanged; otherwise each distinct uncached id is fetched once, with no short-circuit; the cache gains every successful fetch even when the call fails; the call succeeds iff every fetch succeeds; a failure carries the wrapped error of a failed fetch, never a partial list; success gives one entry per listing in page order, pairing it with its cached user |
| `ListingUseCase.GetListingsEmptyPage` | public-api/usecase/listing_usecase.go:31-80 | an empty page gives an empty result, with no fetch and the cache unchanged |
| `ListingUseCase.GetListingsFetchCount` | public-api/usecase/listing_usecase.go:31-69 | a call makes exactly as many user fetches as the page has distinct uncached ids, never more than its distinct ids or its listings |
| `ListingUseCase.GetListingsCacheGrows` | public-api/usecase/listing_usecase.go:49-67 | no cache entry is removed or changed; after a successful call every user id of the page is cached |
| `ListingUseCase.GetListingsOrderIndependent` | public-api/usecase/listing_usecase.go:43-77 | any two goroutine orders give the same cache, the same fetched ids and count, the same success or failure, and the same successful result |
| `ListingUseCase.GetListingsSecondCall` | public-api/usecase/listing_usecase.go:48-63 | a later call fetches exactly its page's ids that were not cached before the earlier call and were not fetched successfully by it |
| `ListingUseCase.GetListingsAllCached` | public-api/usecase/listing_usecase.go:48-54 | a page whose users are all cached is served with no fetch, no error and no cache change |
| `ListingUseCase.GetListingsRepeatServedFromCache` | public-api/usecase/listing_usecase.go:48-54 | after a successful call, a page with no new user makes no fetch, keeps the cache and succeeds |
| `ListingUseCase.GetListingsPairsConsistently` | public-api/usecase/listing_usecase.go:62-89 | when the user source answers with the requested user and the cache matches its keys, the cache keeps matching and every result pairs a listing with the user whose id is its user id |
| `ListingUseCase.ScenarioSharedUser` | public-api/usecase/listing_usecase.go:23-94 | listings (1,7), (2,8), (3,7) with users 7 and 8: one fetch each, for 7 then 8, and the three pairs come back in page order |
| `ListingUseCase.ScenarioFailedFetch` | public-api/usecase/listing_usecase.go:56-77 | the same page with user 8 failing: the call fails with the wrapped error, and user 7 stays cached |
| `ListingUseCase.CreateListing` | public-api/usecase/listing_usecase.go:96-105 | a failed user lookup gives `invalid user_id: <error>` and no create; otherwise the create's result is returned unchanged; the lookup goes to the user source whatever the cache holds, and the cache is unchanged |
| `UserService.EffectivePaging` | user-svc/service.go:26-31 | a page number ≤ 0 becomes 1 and a page size ≤ 0 becomes 10; positive values pass through; both results are ≥ 1 |
| `UserService.EffectivePagingIdempotent` | user-svc/service.go:26-31 | applying the defaults twice changes nothing |
| `UserService.GetAllUsers` | user-svc/service.go:25-34 | exactly one repository call, with the defaulted paging, whose users and error are returned unchanged |
| `UserService.MapLookupError` | user-svc/service.go:43-47 | an error whose text is exactly "user not found" becomes the not-found sentinel; any other error is kept; the text never changes |
| `UserService.MapLookupErrorIdempotent` | user-svc/service.go:44-46 | mapping a mapped error again changes nothing |
| `UserService.GetUserById` | user-svc/service.go:37-51 | an id ≤ 0 gives the invalid-argument sentinel and the zero user with no repository call; otherwise one call, whose user is returned on success, and whose mapped error is returned with the zero user on failure |
| `UserService.GetUserByIdErrorsOnlyFromRepository` | user-svc/service.go:42-48 | for a valid id, the service fails exactly when the repository does, and never reports invalid-argument on its own |
| `UserService.CreateUser` | user-svc/service.go:54-60 | an empty name gives the required-field sentinel and the zero user with no repository call; otherwise one call, whose answer is returned unchanged |
| `ListingHandler.PagingParam` | public-api/handlers/listing_handler.go:27-46 | absent → the default; a parsed value > 0 → that value; a parsed value ≤ 0 → the default; unparseable → rejected; an accepted value is ≥ 1 |
| `ListingHandler.FilterParam` | public-api/handlers/listing_handler.go:49-57 | absent → no filter; any parsed integer, zero and negatives included → that filter; unparseable → rejected |
| `ListingHandler.ParseListingsQuery` | public-api/handlers/listing_handler.go:26-57 | succeeds iff no parameter is unparseable, with page number and size ≥ 1; the first bad parameter, in the order page_num, page_size, user_id, decides the 400 message |
| `ListingHandler.ParseListingsQueryRoundTrip` | public-api/handlers/listing_handler.go:27-57 | a valid query written back as parameters parses to itself |
| `ListingHandler.GetListings` | public-api/handlers/listing_handler.go:22-89 | a bad query gives its 400 and no use-case call; otherwise one call with exactly the parsed and defaulted query, whose page number and size are ≥ 1, answered with 500 on error and with 200 and the listings on success |
| `ListingHandler.ValidateCreateRequest` | public-api/handlers/listing_handler.go:99-116 | accepts exactly a decodable body with user_id > 0, a non-empty listing_type and price > 0, and returns it unchanged; otherwise gives the 400 of the first failed check, in the source's order |
| `ListingHandler.CreateListing` | public-api/handlers/listing_handler.go:91-146 | an invalid body gives the 400 of its first failed check and no use-case call; otherwise one call with the body as decoded, answered with 500 on error and with 201 and the listing on success |
| `ListingHandler.CreateListingInvokesOnlyValidRequests` | public-api/handlers/listing_handler.go:105-126 | the use case is never asked to create a listing with a non-positive user or price, or an empty type |
| `Errors.Text` | user-svc/service.go:44 | only the plain "user not found" message and the not-found sentinel print as "user not found": a wrapped error's text holds a colon, and the listing error's text is longer |
| `Errors.Decimal` | public-api/usecase/listing_usecase.go:84 | `%d` prints a non-empty string that starts with a minus sign exactly for negative numbers, followed only by digits |
| `Errors.NatDigits` | public-api/usecase/listing_usecase.go:84 | a natural number prints as at least one digit, with no leading zero unless the number is 0 |
| `Errors.DecimalRoundTrip` | public-api/usecase/listing_usecase.go:84 | the printed id reads back as the same id, so the message names the listing unambiguously |
| `Gateway.RepositoryUserSourceMatchesIds` | public-api/repository/user_repository.go:35-38 | the repository-backed user source only ever returns the user whose id was asked for |
| `Gateway.RepositoryBackedListingsAreConsistent` | public-api/main.go:32-37 | with the use case wired to the repository, starting from a cache that matches its keys (the empty cache for one), the cache keeps matching and every enriched listing's user id equals its listing's user id |

## Left out

- Real concurrency: goroutines, `sync.WaitGroup`, the mutex, `sync.Map` and the buffered error channel are replaced by a sequential fold over a given order of the distinct ids. Two concurrent requests can both miss on the same id and both `Store` it. That race, and whether the second store overwrites the first, is not modelled.
- HTTP and JSON plumbing: building request URLs, `http.Get`/`http.Post`, status checks and response decoding in both repositories, response writing in the handlers, and `public-api/domain/errors.go`. The upstream sources are abstract functions, and a response is a status code with an error message or a payload.
- The listing repository's conversion of decoded listings, and its create. They are abstract sources here.
- `user-svc/repository.go` (SQL queries, `sql.ErrNoRows`, timeouts, `time.Now` timestamps) is not part of this model. The service sees the repository as abstract functions.
- Process setup: `public-api/main.go` beyond the wiring of the use case to the repository, `user-svc/main.go`, `public-api/config/config.go`, `public-api/logger/logger.go`, and all `slog` logging.
- `public-api/usecase/user_usecase.go`, `public-api/handlers/user_handler.go` and `user-svc/handler.go`: one-line delegation and HTTP plumbing. The user handler's page defaulting repeats what `UserService.EffectivePaging` states.
- The grammar of `strconv.Atoi` (signs, overflow) and of JSON decoding: the caller supplies the parse outcome. An empty query parameter and a missing one are the same `Absent`, as `query.Get` makes them.
- Go's 64-bit `int` and `int64`: integers are unbounded, since no modelled operation does arithmetic that could wrap.
- Error identity for non-sentinel errors: two errors with the same constructor and text are equal here, while Go compares such errors by address.
- `ListingHandler.GetListings` and `ListingHandler.CreateListing` take the use case as an abstract function. They are not composed with `ListingUseCase.GetListings`, whose goroutine order is a parameter of the model.
