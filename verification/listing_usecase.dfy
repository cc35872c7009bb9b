/**
 * The listing use case of the gateway: enrich a page of listings with their
 * users, fetching each distinct user at most once and remembering fetched
 * users in a cache shared across calls; and create a listing after checking
 * that its user exists.
 *
 * The source resolves the distinct user ids in one goroutine each, which
 * write disjoint keys and whose errors are read only after all of them have
 * finished.  Its observable behaviour is that of a sequential fold over the
 * distinct ids in some order; that order is a parameter here (`order`), and
 * `GetListingsOrderIndependent` shows that only the choice among several
 * errors depends on it.
 */
module ListingUseCase {
  import opened Wrappers
  import opened Errors
  import opened Domain

  /** The user repository's lookup by id. */
  type UserSource = int -> Result<User, Error>

  /** The listing repository's page fetch: page number, page size, optional user filter. */
  type ListingSource = (int, int, Option<int>) -> Result<seq<Listing>, Error>

  /** The listing repository's create: user id, listing type, price. */
  type CreateSource = (int, string, int) -> Result<Listing, Error>

  /** The shared user cache, keyed by user id. */
  type Cache = map<int, User>

  const FetchFailureContext := "error fetching user data for listing"
  const InvalidUserContext := "invalid user_id"

  // ---------------------------------------------------------------------
  // Distinct ids and their enumeration
  // ---------------------------------------------------------------------

  /** The set of distinct user ids a page references. */
  function UserIds(listings: seq<Listing>): (ids: set<int>)
    ensures forall i :: 0 <= i < |listings| ==> listings[i].userId in ids
    ensures forall id :: id in ids ==> exists i :: 0 <= i < |listings| && listings[i].userId == id
  {
    set l | l in listings :: l.userId
  }

  predicate NoDuplicates(s: seq<int>)
  {
    forall i, j :: 0 <= i < j < |s| ==> s[i] != s[j]
  }

  /** `order` lists every id of `ids` exactly once: one goroutine per distinct id. */
  predicate Enumerates(order: seq<int>, ids: set<int>)
  {
    && NoDuplicates(order)
    && (forall id :: id in order ==> id in ids)
    && (forall id :: id in ids ==> id in order)
  }

  // ---------------------------------------------------------------------
  // One call's batch of user resolutions
  // ---------------------------------------------------------------------

  /**
   * The state the goroutines of one call share: the process-wide cache, the
   * call's own id-to-user map, the error channel's contents in completion
   * order, and the log of upstream user fetches.
   */
  datatype Batch = Batch(cache: Cache, users: map<int, User>, errors: seq<Error>, fetched: seq<int>)

  const EmptyBatch := Batch(map[], map[], [], [])

  /**
   * One goroutine: a cache hit is used as is; a miss is fetched and, on
   * success, stored. Only a miss reaches the source, only a failed
   * resolution sends an error, and the call's map receives the id's
   * resolution whenever it succeeds.
   */
  function ResolveUser(source: UserSource, b: Batch, id: int): (r: Batch)
    ensures r.fetched == b.fetched + (if id in b.cache then [] else [id])
    ensures Resolution(source, b.cache, id).Failure? ==>
      r.errors == b.errors + [Wrapped(FetchFailureContext, Resolution(source, b.cache, id).error)]
    ensures Resolution(source, b.cache, id).Success? ==> r.errors == b.errors
    ensures id !in b.cache && source(id).Success? ==> r.cache == b.cache[id := source(id).value]
    ensures id in b.cache || source(id).Failure? ==> r.cache == b.cache
    ensures Resolution(source, b.cache, id).Success? ==>
      r.users == b.users[id := Resolution(source, b.cache, id).value]
    ensures Resolution(source, b.cache, id).Failure? ==> r.users == b.users
  {
    if id in b.cache then
      b.(users := b.users[id := b.cache[id]])
    else
      match source(id)
      case Failure(e) =>
        b.(errors := b.errors + [Wrapped(FetchFailureContext, e)], fetched := b.fetched + [id])
      case Success(u) =>
        b.(cache := b.cache[id := u], users := b.users[id := u], fetched := b.fetched + [id])
  }

  /**
   * All goroutines of a call, run to completion in the given order. Each
   * goroutine fetches at most once, and every error comes from a fetch.
   */
  function ResolveAll(source: UserSource, b: Batch, order: seq<int>): (r: Batch)
    ensures |b.fetched| <= |r.fetched| <= |b.fetched| + |order|
    ensures |b.errors| <= |r.errors| && |r.errors| - |b.errors| <= |r.fetched| - |b.fetched|
    decreases |order|
  {
    if order == [] then b else ResolveAll(source, ResolveUser(source, b, order[0]), order[1..])
  }

  // ---------------------------------------------------------------------
  // Reference definitions, independent of any order
  // ---------------------------------------------------------------------

  /** What an id resolves to on its own: its cached user, or the source's answer. */
  function Resolution(source: UserSource, cache: Cache, id: int): Result<User, Error>
  {
    if id in cache then Success(cache[id]) else source(id)
  }

  /** The users a call adds to the cache: every successfully fetched miss. */
  ghost function NewlyCached(source: UserSource, cache: Cache, ids: set<int>): Cache
  {
    map id | id in ids && id !in cache && source(id).Success? :: source(id).value
  }

  /** The users a call resolves: every id whose resolution succeeds. */
  ghost function Resolved(source: UserSource, cache: Cache, ids: set<int>): map<int, User>
  {
    map id | id in ids && Resolution(source, cache, id).Success? :: Resolution(source, cache, id).value
  }

  /** The ids of `order` that miss the cache, in order. */
  function Misses(order: seq<int>, cache: Cache): seq<int>
  {
    if order == [] then []
    else (if order[0] in cache then [] else [order[0]]) + Misses(order[1..], cache)
  }

  /** The errors the fetches of `ids` send, in order. */
  function Failures(source: UserSource, ids: seq<int>): seq<Error>
  {
    if ids == [] then []
    else
      (if source(ids[0]).Failure? then [Wrapped(FetchFailureContext, source(ids[0]).error)] else [])
      + Failures(source, ids[1..])
  }

  ghost function Elems(s: seq<int>): set<int>
  {
    set x | x in s
  }

  lemma {:induction false} MissesElems(order: seq<int>, cache: Cache)
    ensures forall id :: id in Misses(order, cache) <==> id in order && id !in cache
    ensures NoDuplicates(order) ==> NoDuplicates(Misses(order, cache))
    decreases |order|
  {
    if order != [] {
      MissesElems(order[1..], cache);
      var ms := Misses(order, cache);
      var rest := Misses(order[1..], cache);
      forall id
        ensures id in ms <==> id in order && id !in cache
      {
        assert id in order <==> id == order[0] || id in order[1..];
      }
      if NoDuplicates(order) {
        assert order[0] !in order[1..];
      }
    }
  }

  lemma {:induction false} MissesAgree(order: seq<int>, c1: Cache, c2: Cache)
    requires forall id :: id in order ==> (id in c1 <==> id in c2)
    ensures Misses(order, c1) == Misses(order, c2)
    decreases |order|
  {
    if order != [] {
      var x := order[0];
      assert x in order by {
        assert order == [x] + order[1..];
      }
      assert x in c1 <==> x in c2;
      forall id | id in order[1..]
        ensures id in c1 <==> id in c2
      {
        assert id in order;
      }
      MissesAgree(order[1..], c1, c2);
      assert Misses(order, c1) == (if order[0] in c1 then [] else [order[0]]) + Misses(order[1..], c1);
      assert Misses(order, c2) == (if order[0] in c2 then [] else [order[0]]) + Misses(order[1..], c2);
    }
  }

  lemma {:induction false} FailuresMeaning(source: UserSource, ids: seq<int>)
    ensures Failures(source, ids) == [] <==> forall id :: id in ids ==> source(id).Success?
    ensures forall k :: 0 <= k < |Failures(source, ids)| ==>
      exists id :: (id in ids && source(id).Failure? &&
        Failures(source, ids)[k] == Wrapped(FetchFailureContext, source(id).error))
    decreases |ids|
  {
    if ids != [] {
      FailuresMeaning(source, ids[1..]);
      var fs := Failures(source, ids);
      var head := if source(ids[0]).Failure? then [Wrapped(FetchFailureContext, source(ids[0]).error)] else [];
      var rest := Failures(source, ids[1..]);
      assert fs == head + rest;
      forall k | 0 <= k < |fs|
        ensures exists id :: (id in ids && source(id).Failure? &&
          fs[k] == Wrapped(FetchFailureContext, source(id).error))
      {
        if k < |head| {
          var id := ids[0];
          assert id in ids && source(id).Failure?;
          assert fs[k] == Wrapped(FetchFailureContext, source(id).error);
        } else {
          assert fs[k] == rest[k - |head|];
          var id :| id in ids[1..] && source(id).Failure? &&
            rest[k - |head|] == Wrapped(FetchFailureContext, source(id).error);
          assert id in ids;
          assert fs[k] == Wrapped(FetchFailureContext, source(id).error);
        }
      }
      if fs == [] {
        forall id | id in ids
          ensures source(id).Success?
        {
          if id != ids[0] {
            assert id in ids[1..];
          }
        }
      }
      if forall id :: id in ids ==> source(id).Success? {
        assert ids[0] in ids;
        forall id | id in ids[1..]
          ensures source(id).Success?
        {
          assert id in ids;
        }
      }
    }
  }

  /** The head of a duplicate-free order does not occur again in its tail. */
  lemma SplitHead(order: seq<int>)
    requires order != [] && NoDuplicates(order)
    ensures order[0] !in order[1..]
    ensures NoDuplicates(order[1..])
    ensures Elems(order) == Elems(order[1..]) + {order[0]}
  {
  }

  lemma {:induction false} FailuresAppend(source: UserSource, s: seq<int>, t: seq<int>)
    ensures Failures(source, s + t) == Failures(source, s) + Failures(source, t)
    decreases |s|
  {
    if s != [] {
      assert (s + t)[1..] == s[1..] + t;
      FailuresAppend(source, s[1..], t);
    } else {
      assert s + t == t;
    }
  }

  lemma {:induction false} MissesAppend(s: seq<int>, t: seq<int>, cache: Cache)
    ensures Misses(s + t, cache) == Misses(s, cache) + Misses(t, cache)
    decreases |s|
  {
    if s != [] {
      assert (s + t)[1..] == s[1..] + t;
      MissesAppend(s[1..], t, cache);
    } else {
      assert s + t == t;
    }
  }

  /** One goroutine's entries in the fetch log and the error channel, as misses and failures. */
  lemma ResolveUserLog(source: UserSource, b: Batch, x: int)
    ensures ResolveUser(source, b, x).fetched == b.fetched + Misses([x], b.cache)
    ensures ResolveUser(source, b, x).errors == b.errors + Failures(source, Misses([x], b.cache))
  {
  }

  /** A goroutine for `x` does not change which of the other ids miss the cache. */
  lemma ResolveUserKeepsMisses(source: UserSource, b: Batch, x: int, others: seq<int>)
    requires x !in others
    ensures Misses(others, ResolveUser(source, b, x).cache) == Misses(others, b.cache)
  {
  }

  /** The fetch log receives the misses in processing order. */
  lemma {:induction false} ResolveAllFetched(source: UserSource, b: Batch, order: seq<int>)
    requires NoDuplicates(order)
    ensures ResolveAll(source, b, order).fetched == b.fetched + Misses(order, b.cache)
    decreases |order|
  {
    if order != [] {
      var x, tail := order[0], order[1..];
      SplitHead(order);
      var b1 := ResolveUser(source, b, x);
      var head, rest := Misses([x], b.cache), Misses(tail, b.cache);
      calc {
        ResolveAll(source, b, order).fetched;
        ResolveAll(source, b1, tail).fetched;
        { ResolveAllFetched(source, b1, tail); }
        b1.fetched + Misses(tail, b1.cache);
        { ResolveUserKeepsMisses(source, b, x, tail); ResolveUserLog(source, b, x); }
        (b.fetched + head) + rest;
        b.fetched + (head + rest);
        { assert order == [x] + tail; MissesAppend([x], tail, b.cache); }
        b.fetched + Misses(order, b.cache);
      }
    }
  }

  /** The error channel receives the failures of the misses in processing order. */
  lemma {:induction false} ResolveAllErrors(source: UserSource, b: Batch, order: seq<int>)
    requires NoDuplicates(order)
    ensures ResolveAll(source, b, order).errors == b.errors + Failures(source, Misses(order, b.cache))
    decreases |order|
  {
    if order != [] {
      var x, tail := order[0], order[1..];
      SplitHead(order);
      var b1 := ResolveUser(source, b, x);
      var head, rest := Misses([x], b.cache), Misses(tail, b.cache);
      var fh, fr := Failures(source, head), Failures(source, rest);
      calc {
        ResolveAll(source, b, order).errors;
        ResolveAll(source, b1, tail).errors;
        { ResolveAllErrors(source, b1, tail); }
        b1.errors + Failures(source, Misses(tail, b1.cache));
        { ResolveUserKeepsMisses(source, b, x, tail); ResolveUserLog(source, b, x); }
        (b.errors + fh) + fr;
        b.errors + (fh + fr);
        { FailuresAppend(source, head, rest); }
        b.errors + Failures(source, head + rest);
        { assert order == [x] + tail; MissesAppend([x], tail, b.cache); }
        b.errors + Failures(source, Misses(order, b.cache));
      }
    }
  }

  /** The cache ends as the start cache plus every successfully fetched miss, whatever else failed. */
  lemma {:induction false} ResolveAllCache(source: UserSource, b: Batch, order: seq<int>)
    requires NoDuplicates(order)
    ensures forall id :: id in ResolveAll(source, b, order).cache <==>
      id in b.cache || (id in order && source(id).Success?)
    ensures forall id :: id in ResolveAll(source, b, order).cache ==>
      ResolveAll(source, b, order).cache[id] == (if id in b.cache then b.cache[id] else source(id).value)
    decreases |order|
  {
    if order != [] {
      SplitHead(order);
      ResolveAllCache(source, ResolveUser(source, b, order[0]), order[1..]);
    }
  }

  /** The call's own map holds every id of the order whose resolution succeeded, with that user. */
  lemma {:induction false} ResolveAllUsers(source: UserSource, b: Batch, order: seq<int>)
    requires NoDuplicates(order)
    ensures forall id :: id in order ==>
      (id in ResolveAll(source, b, order).users <==> Resolution(source, b.cache, id).Success? || id in b.users)
    ensures forall id :: id in order && Resolution(source, b.cache, id).Success? ==>
      ResolveAll(source, b, order).users[id] == Resolution(source, b.cache, id).value
    decreases |order|
  {
    if order != [] {
      SplitHead(order);
      var b1 := ResolveUser(source, b, order[0]);
      ResolveAllUsers(source, b1, order[1..]);
      ResolveAllKeeps(source, b1, order[1..], order[0]);
    }
  }

  /** An id that is not processed keeps its entry in the call's map. */
  lemma {:induction false} ResolveAllKeeps(source: UserSource, b: Batch, order: seq<int>, id: int)
    requires id !in order
    ensures id in ResolveAll(source, b, order).users <==> id in b.users
    ensures id in b.users ==> ResolveAll(source, b, order).users[id] == b.users[id]
    decreases |order|
  {
    if order != [] {
      assert id !in order[1..] by {
        assert forall y :: y in order[1..] ==> y in order;
      }
      ResolveAllKeeps(source, ResolveUser(source, b, order[0]), order[1..], id);
    }
  }

  /** A duplicate-free sequence has as many elements as its set of elements. */
  lemma {:induction false} DistinctCount(s: seq<int>)
    requires NoDuplicates(s)
    ensures |Elems(s)| == |s|
    decreases |s|
  {
    if s == [] {
      assert Elems(s) == {};
    } else {
      SplitHead(s);
      DistinctCount(s[1..]);
      assert s[0] !in Elems(s[1..]);
    }
  }

  /** A page references at most as many distinct users as it has listings. */
  lemma {:induction false} UserIdsBound(listings: seq<Listing>)
    ensures |UserIds(listings)| <= |listings|
    decreases |listings|
  {
    if listings == [] {
      assert UserIds(listings) == {};
    } else {
      var tail := listings[1..];
      UserIdsBound(tail);
      var ids, rest, u := UserIds(listings), UserIds(tail), listings[0].userId;
      forall id
        ensures id in ids <==> id in rest + {u}
      {
        if id in ids && id != u {
          var i :| 0 <= i < |listings| && listings[i].userId == id;
          assert tail[i - 1] == listings[i];
        }
        if id in rest {
          var j :| 0 <= j < |tail| && tail[j].userId == id;
          assert listings[j + 1] == tail[j];
        }
      }
      assert ids == rest + {u};
    }
  }

  /** The batch that one call runs, from an empty map of its own. */
  function RunBatch(source: UserSource, cache: Cache, order: seq<int>): Batch
  {
    ResolveAll(source, Batch(cache, map[], [], []), order)
  }

  /** A batch leaves the cache as it was plus every successful fetch. */
  lemma BatchCache(source: UserSource, cache: Cache, ids: set<int>, order: seq<int>)
    requires Enumerates(order, ids)
    ensures RunBatch(source, cache, order).cache == cache + NewlyCached(source, cache, ids)
  {
    var b := RunBatch(source, cache, order);
    ResolveAllCache(source, Batch(cache, map[], [], []), order);
    var expected := cache + NewlyCached(source, cache, ids);
    forall id
      ensures id in b.cache <==> id in expected
      ensures id in b.cache ==> b.cache[id] == expected[id]
    {
      assert id in order <==> id in ids;
    }
    assert b.cache.Keys == expected.Keys;
  }

  /** A batch fetches each uncached id once and nothing else. */
  lemma BatchFetched(source: UserSource, cache: Cache, ids: set<int>, order: seq<int>)
    requires Enumerates(order, ids)
    ensures NoDuplicates(RunBatch(source, cache, order).fetched)
    ensures forall id :: id in RunBatch(source, cache, order).fetched <==> id in ids && id !in cache
  {
    ResolveAllFetched(source, Batch(cache, map[], [], []), order);
    MissesElems(order, cache);
  }

  /** A batch reports one wrapped error for each fetch that failed, and no other. */
  lemma BatchErrors(source: UserSource, cache: Cache, ids: set<int>, order: seq<int>)
    requires Enumerates(order, ids)
    ensures RunBatch(source, cache, order).errors == [] <==>
      forall id :: id in ids && id !in cache ==> source(id).Success?
    ensures forall k :: 0 <= k < |RunBatch(source, cache, order).errors| ==>
      exists id :: (id in ids && id !in cache && source(id).Failure? &&
        RunBatch(source, cache, order).errors[k] == Wrapped(FetchFailureContext, source(id).error))
  {
    var errors := RunBatch(source, cache, order).errors;
    ResolveAllErrors(source, Batch(cache, map[], [], []), order);
    var ms := Misses(order, cache);
    MissesElems(order, cache);
    FailuresMeaning(source, ms);
    assert errors == Failures(source, ms);
    forall k | 0 <= k < |errors|
      ensures exists id :: (id in ids && id !in cache &&
        source(id).Failure? && errors[k] == Wrapped(FetchFailureContext, source(id).error))
    {
      var id :| id in ms && source(id).Failure? && errors[k] == Wrapped(FetchFailureContext, source(id).error);
      assert id in ids && id !in cache;
    }
    if forall id :: id in ids && id !in cache ==> source(id).Success? {
      assert forall id :: id in ms ==> source(id).Success?;
    }
  }

  /** A batch's own map holds every id whose resolution succeeded, with the resolved user. */
  lemma BatchUsers(source: UserSource, cache: Cache, ids: set<int>, order: seq<int>)
    requires Enumerates(order, ids)
    ensures forall id :: id in RunBatch(source, cache, order).users <==>
      id in ids && Resolution(source, cache, id).Success?
    ensures forall id :: id in RunBatch(source, cache, order).users ==>
      RunBatch(source, cache, order).users[id] == Resolution(source, cache, id).value
  {
    var b0 := Batch(cache, map[], [], []);
    var b := RunBatch(source, cache, order);
    ResolveAllUsers(source, b0, order);
    ResolveAllKeepsOutside(source, b0, order);
  }

  /** Whatever the order, a batch's own map is exactly the order-free resolution of its ids. */
  lemma BatchResolvesIds(source: UserSource, cache: Cache, ids: set<int>, order: seq<int>)
    requires Enumerates(order, ids)
    ensures RunBatch(source, cache, order).users == Resolved(source, cache, ids)
  {
    var b := RunBatch(source, cache, order);
    var expected := Resolved(source, cache, ids);
    BatchUsers(source, cache, ids, order);
    forall id
      ensures id in b.users <==> id in expected
    {
    }
    assert b.users.Keys == expected.Keys;
  }

  /** Ids outside the order never enter the call's map. */
  lemma ResolveAllKeepsOutside(source: UserSource, b: Batch, order: seq<int>)
    ensures forall id :: id !in order ==>
      (id in ResolveAll(source, b, order).users <==> id in b.users)
  {
    forall id | id !in order
      ensures id in ResolveAll(source, b, order).users <==> id in b.users
    {
      ResolveAllKeeps(source, b, order, id);
    }
  }

  // ---------------------------------------------------------------------
  // The join and the two use-case operations
  // ---------------------------------------------------------------------

  /**
   * The join: walk the page in order and pair each listing with its user
   * from the call's map; the first listing whose user is missing ends the
   * walk with an error.
   */
  function Join(listings: seq<Listing>, users: map<int, User>): (r: Result<seq<ListingWithUser>, Error>)
    ensures r.Success? <==> forall i :: 0 <= i < |listings| ==> listings[i].userId in users
    ensures r.Success? ==> |r.value| == |listings|
    ensures r.Success? ==> forall i :: 0 <= i < |listings| ==>
      r.value[i].listing == listings[i] && r.value[i].user == users[listings[i].userId]
    ensures r.Failure? ==> exists i :: (0 <= i < |listings| && listings[i].userId !in users &&
      r.error == ListingUserMissing(listings[i].id) &&
      forall j :: 0 <= j < i ==> listings[j].userId in users)
  {
    if listings == [] then Success([])
    else if listings[0].userId !in users then Failure(ListingUserMissing(listings[0].id))
    else
      match Join(listings[1..], users)
      case Failure(e) => Failure(e)
      case Success(rest) => Success([ListingWithUser(listings[0], users[listings[0].userId])] + rest)
  }

  /** What one GetListings call returns, and the state it leaves behind. */
  datatype Outcome = Outcome(result: Result<seq<ListingWithUser>, Error>, cache: Cache, fetched: seq<int>)

  /** `order` lists the distinct user ids of the page, when there is one. */
  predicate OrdersPage(page: Result<seq<Listing>, Error>, order: seq<int>)
  {
    page.Success? ==> Enumerates(order, UserIds(page.value))
  }

  /**
   * GetListings: fetch one page of listings, resolve each distinct user id
   * through the cache or the user source, and, if no resolution failed,
   * pair every listing with its user in page order.
   */
  function GetListings(listings: ListingSource, users: UserSource, cache: Cache, order: seq<int>,
                       pageNum: int, pageSize: int, userFilter: Option<int>): (o: Outcome)
    requires OrdersPage(listings(pageNum, pageSize, userFilter), order)
    // A failed page fetch is returned as is, with no user fetch and no cache change.
    ensures listings(pageNum, pageSize, userFilter).Failure? ==>
      o == Outcome(Failure(listings(pageNum, pageSize, userFilter).error), cache, [])
    // Each distinct uncached id is fetched exactly once, and nothing else is fetched.
    ensures listings(pageNum, pageSize, userFilter).Success? ==>
      var ids := UserIds(listings(pageNum, pageSize, userFilter).value);
      && NoDuplicates(o.fetched)
      && forall id :: id in o.fetched <==> id in ids && id !in cache
    // The cache keeps every entry and gains every successful fetch, even when the call fails.
    ensures listings(pageNum, pageSize, userFilter).Success? ==>
      var ids := UserIds(listings(pageNum, pageSize, userFilter).value);
      o.cache == cache + NewlyCached(users, cache, ids)
    // All or nothing: the call succeeds exactly when every fetch succeeds.
    ensures listings(pageNum, pageSize, userFilter).Success? ==>
      var ids := UserIds(listings(pageNum, pageSize, userFilter).value);
      o.result.Success? <==> forall id :: id in ids && id !in cache ==> users(id).Success?
    // A failure is the wrapped error of one of the failed fetches.
    ensures listings(pageNum, pageSize, userFilter).Success? && o.result.Failure? ==>
      var ids := UserIds(listings(pageNum, pageSize, userFilter).value);
      exists id :: (id in ids && id !in cache && users(id).Failure? &&
        o.result.error == Wrapped(FetchFailureContext, users(id).error))
    // On success the result follows the page, listing by listing, with each listing's cached user.
    ensures listings(pageNum, pageSize, userFilter).Success? && o.result.Success? ==>
      var page := listings(pageNum, pageSize, userFilter).value;
      && |o.result.value| == |page|
      && forall i :: 0 <= i < |page| ==>
        && o.result.value[i].listing == page[i]
        && page[i].userId in o.cache
        && o.result.value[i].user == o.cache[page[i].userId]
  {
    match listings(pageNum, pageSize, userFilter)
    case Failure(e) => Outcome(Failure(e), cache, [])
    case Success(page) =>
      var b := RunBatch(users, cache, order);
      BatchCache(users, cache, UserIds(page), order);
      BatchFetched(users, cache, UserIds(page), order);
      BatchErrors(users, cache, UserIds(page), order);
      BatchUsers(users, cache, UserIds(page), order);
      if b.errors != [] then
        Outcome(Failure(b.errors[0]), b.cache, b.fetched)
      else
        assert forall i :: 0 <= i < |page| ==> page[i].userId in b.users;
        Outcome(Join(page, b.users), b.cache, b.fetched)
  }

  /** What one CreateListing call returns; the cache is carried to show it is left alone. */
  datatype Created = Created(result: Result<Listing, Error>, createCalled: bool, cache: Cache)

  /**
   * CreateListing: ask the user source whether the user exists, bypassing the
   * cache, and only then create the listing.
   */
  function CreateListing(users: UserSource, create: CreateSource, cache: Cache,
                         userId: int, listingType: string, price: int): (c: Created)
    ensures c.cache == cache
    ensures users(userId).Failure? ==>
      !c.createCalled && c.result == Failure(Wrapped(InvalidUserContext, users(userId).error))
    ensures users(userId).Success? ==>
      c.createCalled && c.result == create(userId, listingType, price)
  {
    match users(userId)
    case Failure(e) => Created(Failure(Wrapped(InvalidUserContext, e)), false, cache)
    case Success(_) => Created(create(userId, listingType, price), true, cache)
  }

  // ---------------------------------------------------------------------
  // Properties of GetListings
  // ---------------------------------------------------------------------

  /** An empty page gives an empty result, with no user fetch and no cache change. */
  lemma GetListingsEmptyPage(listings: ListingSource, users: UserSource, cache: Cache,
                             pageNum: int, pageSize: int, userFilter: Option<int>)
    requires listings(pageNum, pageSize, userFilter) == Success([])
    ensures GetListings(listings, users, cache, [], pageNum, pageSize, userFilter) == Outcome(Success([]), cache, [])
  {
  }

  /**
   * Deduplication: a call fetches exactly as many users as the page has
   * distinct uncached user ids, which is never more than the page's length.
   */
  lemma GetListingsFetchCount(listings: ListingSource, users: UserSource, cache: Cache, order: seq<int>,
                              pageNum: int, pageSize: int, userFilter: Option<int>)
    requires listings(pageNum, pageSize, userFilter).Success?
    requires OrdersPage(listings(pageNum, pageSize, userFilter), order)
    ensures var page := listings(pageNum, pageSize, userFilter).value;
      var o := GetListings(listings, users, cache, order, pageNum, pageSize, userFilter);
      && |o.fetched| == |UserIds(page) - cache.Keys|
      && |o.fetched| <= |UserIds(page)| <= |page|
  {
    var page := listings(pageNum, pageSize, userFilter).value;
    var o := GetListings(listings, users, cache, order, pageNum, pageSize, userFilter);
    DistinctCount(o.fetched);
    assert Elems(o.fetched) == UserIds(page) - cache.Keys;
    UserIdsBound(page);
    SubsetCount(UserIds(page) - cache.Keys, UserIds(page));
  }

  lemma SubsetCount(a: set<int>, b: set<int>)
    requires a <= b
    ensures |a| <= |b|
  {
    assert b == a + (b - a);
  }

  /**
   * The cache only grows: no entry is removed or changed, and after a
   * successful call every user id of the page is cached.
   */
  lemma GetListingsCacheGrows(listings: ListingSource, users: UserSource, cache: Cache, order: seq<int>,
                              pageNum: int, pageSize: int, userFilter: Option<int>)
    requires OrdersPage(listings(pageNum, pageSize, userFilter), order)
    ensures var o := GetListings(listings, users, cache, order, pageNum, pageSize, userFilter);
      forall id :: id in cache ==> id in o.cache && o.cache[id] == cache[id]
    ensures var o := GetListings(listings, users, cache, order, pageNum, pageSize, userFilter);
      o.result.Success? ==>
        forall id :: id in UserIds(listings(pageNum, pageSize, userFilter).value) ==> id in o.cache
  {
  }

  /**
   * The order in which the distinct ids are resolved decides at most which
   * error is reported: the cache, the set of fetched ids, whether the call
   * succeeds and the successful result are the same for every order.
   */
  lemma GetListingsOrderIndependent(listings: ListingSource, users: UserSource, cache: Cache,
                                    order1: seq<int>, order2: seq<int>,
                                    pageNum: int, pageSize: int, userFilter: Option<int>)
    requires OrdersPage(listings(pageNum, pageSize, userFilter), order1)
    requires OrdersPage(listings(pageNum, pageSize, userFilter), order2)
    ensures var o1 := GetListings(listings, users, cache, order1, pageNum, pageSize, userFilter);
      var o2 := GetListings(listings, users, cache, order2, pageNum, pageSize, userFilter);
      && o1.cache == o2.cache
      && (forall id :: id in o1.fetched <==> id in o2.fetched)
      && |o1.fetched| == |o2.fetched|
      && o1.result.Success? == o2.result.Success?
      && (o1.result.Success? ==> o1.result == o2.result)
  {
    var o1 := GetListings(listings, users, cache, order1, pageNum, pageSize, userFilter);
    var o2 := GetListings(listings, users, cache, order2, pageNum, pageSize, userFilter);
    if listings(pageNum, pageSize, userFilter).Success? {
      DistinctCount(o1.fetched);
      DistinctCount(o2.fetched);
      assert Elems(o1.fetched) == Elems(o2.fetched);
      if o1.result.Success? {
        var r1, r2 := o1.result.value, o2.result.value;
        assert |r1| == |r2|;
        forall i | 0 <= i < |r1| ensures r1[i] == r2[i] {
        }
        assert r1 == r2;
      }
    }
  }

  /**
   * Reuse across calls: a later call fetches only the ids of its page that
   * were neither cached before the earlier call nor fetched successfully by it.
   */
  lemma GetListingsSecondCall(listings: ListingSource, users: UserSource, cache: Cache,
                              order1: seq<int>, pageNum1: int, pageSize1: int, userFilter1: Option<int>,
                              order2: seq<int>, pageNum2: int, pageSize2: int, userFilter2: Option<int>)
    requires listings(pageNum1, pageSize1, userFilter1).Success?
    requires OrdersPage(listings(pageNum1, pageSize1, userFilter1), order1)
    requires listings(pageNum2, pageSize2, userFilter2).Success?
    requires OrdersPage(listings(pageNum2, pageSize2, userFilter2), order2)
    ensures var ids1 := UserIds(listings(pageNum1, pageSize1, userFilter1).value);
      var ids2 := UserIds(listings(pageNum2, pageSize2, userFilter2).value);
      var o1 := GetListings(listings, users, cache, order1, pageNum1, pageSize1, userFilter1);
      var o2 := GetListings(listings, users, o1.cache, order2, pageNum2, pageSize2, userFilter2);
      forall id :: id in o2.fetched <==> id in ids2 && id !in cache && !(id in ids1 && users(id).Success?)
  {
  }

  /** After a successful call, a call whose page brings no new user fetches nothing and changes nothing. */
  lemma GetListingsRepeatServedFromCache(listings: ListingSource, users: UserSource, cache: Cache,
                              order1: seq<int>, pageNum1: int, pageSize1: int, userFilter1: Option<int>,
                              order2: seq<int>, pageNum2: int, pageSize2: int, userFilter2: Option<int>)
    requires listings(pageNum1, pageSize1, userFilter1).Success?
    requires OrdersPage(listings(pageNum1, pageSize1, userFilter1), order1)
    requires listings(pageNum2, pageSize2, userFilter2).Success?
    requires OrdersPage(listings(pageNum2, pageSize2, userFilter2), order2)
    requires GetListings(listings, users, cache, order1, pageNum1, pageSize1, userFilter1).result.Success?
    requires UserIds(listings(pageNum2, pageSize2, userFilter2).value)
          <= UserIds(listings(pageNum1, pageSize1, userFilter1).value)
    ensures var o1 := GetListings(listings, users, cache, order1, pageNum1, pageSize1, userFilter1);
      var o2 := GetListings(listings, users, o1.cache, order2, pageNum2, pageSize2, userFilter2);
      o2.fetched == [] && o2.cache == o1.cache && o2.result.Success?
  {
    var o1 := GetListings(listings, users, cache, order1, pageNum1, pageSize1, userFilter1);
    GetListingsCacheGrows(listings, users, cache, order1, pageNum1, pageSize1, userFilter1);
    GetListingsAllCached(listings, users, o1.cache, order2, pageNum2, pageSize2, userFilter2);
  }

  /** A page whose users are all cached is served without a fetch, without error and without a cache change. */
  lemma GetListingsAllCached(listings: ListingSource, users: UserSource, cache: Cache, order: seq<int>,
                             pageNum: int, pageSize: int, userFilter: Option<int>)
    requires listings(pageNum, pageSize, userFilter).Success?
    requires OrdersPage(listings(pageNum, pageSize, userFilter), order)
    requires UserIds(listings(pageNum, pageSize, userFilter).value) <= cache.Keys
    ensures var o := GetListings(listings, users, cache, order, pageNum, pageSize, userFilter);
      o.fetched == [] && o.cache == cache && o.result.Success?
  {
    var ids := UserIds(listings(pageNum, pageSize, userFilter).value);
    var o := GetListings(listings, users, cache, order, pageNum, pageSize, userFilter);
    DistinctCount(o.fetched);
    assert Elems(o.fetched) == {};
    assert NewlyCached(users, cache, ids) == map[];
  }

  /** The user source answers with the user it was asked for. */
  ghost predicate SourceMatchesIds(users: UserSource)
  {
    forall id :: users(id).Success? ==> users(id).value.id == id
  }

  /** Every cache entry holds the user of its key. */
  ghost predicate CacheMatchesIds(cache: Cache)
  {
    forall id :: id in cache ==> cache[id].id == id
  }

  /**
   * Pairing: when the user source answers with the requested user, the
   * cache keeps matching its keys and every enriched listing carries the
   * user it references.
   */
  lemma GetListingsPairsConsistently(listings: ListingSource, users: UserSource, cache: Cache, order: seq<int>,
                                     pageNum: int, pageSize: int, userFilter: Option<int>)
    requires OrdersPage(listings(pageNum, pageSize, userFilter), order)
    requires SourceMatchesIds(users)
    requires CacheMatchesIds(cache)
    ensures var o := GetListings(listings, users, cache, order, pageNum, pageSize, userFilter);
      && CacheMatchesIds(o.cache)
      && (o.result.Success? ==> forall i :: 0 <= i < |o.result.value| ==> Consistent(o.result.value[i]))
  {
  }

  // ---------------------------------------------------------------------
  // Two worked scenarios
  // ---------------------------------------------------------------------

  function ScenarioListing(id: int, userId: int): Listing
  {
    Listing(id, userId, "rent", 1000, 0, 0, None)
  }

  const ScenarioPage := [ScenarioListing(1, 7), ScenarioListing(2, 8), ScenarioListing(3, 7)]

  /** A listing source that always serves the scenario page. */
  function ScenarioListings(pageNum: int, pageSize: int, userFilter: Option<int>): Result<seq<Listing>, Error>
  {
    Success(ScenarioPage)
  }

  const Alice := User(7, "A", 0, 0)
  const Bob := User(8, "B", 0, 0)

  /** Users 7 and 8 are each fetched once, and the page comes back in order. */
  lemma ScenarioSharedUser(users: UserSource)
    requires users(7) == Success(Alice) && users(8) == Success(Bob)
    ensures var o := GetListings(ScenarioListings, users, map[], [7, 8], 1, 10, None);
      && o.fetched == [7, 8]
      && o.result == Success([
           ListingWithUser(ScenarioListing(1, 7), Alice),
           ListingWithUser(ScenarioListing(2, 8), Bob),
           ListingWithUser(ScenarioListing(3, 7), Alice)])
  {
    assert UserIds(ScenarioPage) == {7, 8} by {
      assert ScenarioPage[0].userId == 7 && ScenarioPage[1].userId == 8;
    }
    // the batch: 7 then 8, both misses, both fetched
    var b1 := ResolveUser(users, Batch(map[], map[], [], []), 7);
    assert b1 == Batch(map[7 := Alice], map[7 := Alice], [], [7]);
    var b2 := ResolveUser(users, b1, 8);
    var known := map[7 := Alice, 8 := Bob];
    assert b2 == Batch(known, known, [], [7, 8]);
    assert [7, 8][1..][1..] == [];
    assert RunBatch(users, map[], [7, 8]) == b2;
    // the join, listing by listing from the back
    var l1, l2, l3 := ScenarioListing(1, 7), ScenarioListing(2, 8), ScenarioListing(3, 7);
    var e1, e2, e3 := ListingWithUser(l1, Alice), ListingWithUser(l2, Bob), ListingWithUser(l3, Alice);
    assert ScenarioPage == [l1, l2, l3];
    assert [l3][1..] == [] && [l2, l3][1..] == [l3] && [l1, l2, l3][1..] == [l2, l3];
    assert [e3] == [e3] + [] && [e2, e3] == [e2] + [e3] && [e1, e2, e3] == [e1] + [e2, e3];
    assert Join([l3], known) == Success([e3]);
    assert Join([l2, l3], known) == Success([e2, e3]);
    assert Join([l1, l2, l3], known) == Success([e1, e2, e3]);
  }

  /** When user 8 cannot be fetched the call fails as a whole, but user 7 stays cached. */
  lemma ScenarioFailedFetch(users: UserSource, e: Error)
    requires users(7) == Success(Alice) && users(8) == Failure(e)
    ensures var o := GetListings(ScenarioListings, users, map[], [7, 8], 1, 10, None);
      && o.result == Failure(Wrapped(FetchFailureContext, e))
      && o.cache == map[7 := Alice]
  {
  }
}
