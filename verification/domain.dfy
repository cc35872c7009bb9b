/** The records of the gateway's domain package. */
module Domain {
  import opened Wrappers

  /** A user as the gateway sees it.  Timestamps are Unix microseconds. */
  datatype User = User(id: int, name: string, createdAt: int, updatedAt: int)

  /**
   * A listing.  The embedded optional `user` is part of the record but is
   * never filled in by the listing source; the join leaves it as it is.
   */
  datatype Listing = Listing(
    id: int,
    userId: int,
    listingType: string,
    price: int,
    createdAt: int,
    updatedAt: int,
    user: Option<User>)

  /** A listing paired with the user it references. */
  datatype ListingWithUser = ListingWithUser(listing: Listing, user: User)

  /** The pairing invariant of an enriched listing. */
  predicate Consistent(e: ListingWithUser)
  {
    e.user.id == e.listing.userId
  }
}
