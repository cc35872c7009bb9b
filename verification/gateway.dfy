/**
 * The gateway's wiring: the listing use case looks users up through the
 * user repository.  Together they guarantee the pairing invariant without
 * any assumption about the upstream user service.
 */
module Gateway {
  import opened Wrappers
  import opened Domain
  import UserRepository
  import ListingUseCase

  /** The user source the listing use case is built with: the repository's lookup by id. */
  function RepositoryUserSource(pages: UserRepository.PageSource): ListingUseCase.UserSource
  {
    id => UserRepository.GetUserById(pages, id)
  }

  /** Whatever the user service returns, the repository answers only with the user asked for. */
  lemma RepositoryUserSourceMatchesIds(pages: UserRepository.PageSource)
    ensures ListingUseCase.SourceMatchesIds(RepositoryUserSource(pages))
  {
    forall id | RepositoryUserSource(pages)(id).Success?
      ensures RepositoryUserSource(pages)(id).value.id == id
    {
      assert RepositoryUserSource(pages)(id) == UserRepository.GetUserById(pages, id);
    }
  }

  /**
   * A use case built on the repository, started with a cache that matches
   * its keys (the empty cache it is created with, for one), keeps the cache
   * matching and pairs every listing with the user it references.
   */
  lemma RepositoryBackedListingsAreConsistent(listings: ListingUseCase.ListingSource,
                                              pages: UserRepository.PageSource,
                                              cache: ListingUseCase.Cache, order: seq<int>,
                                              pageNum: int, pageSize: int, userFilter: Option<int>)
    requires ListingUseCase.OrdersPage(listings(pageNum, pageSize, userFilter), order)
    requires ListingUseCase.CacheMatchesIds(cache)
    ensures var o := ListingUseCase.GetListings(listings, RepositoryUserSource(pages), cache, order,
                                                pageNum, pageSize, userFilter);
      && ListingUseCase.CacheMatchesIds(o.cache)
      && (o.result.Success? ==> forall i :: 0 <= i < |o.result.value| ==> Consistent(o.result.value[i]))
  {
    RepositoryUserSourceMatchesIds(pages);
    ListingUseCase.GetListingsPairsConsistently(listings, RepositoryUserSource(pages), cache, order,
                                                pageNum, pageSize, userFilter);
  }
}
