/**
 * The ENS resolver cache: `fetchENSData` memoises address lookups in the
 * page-wide `ensCache` map. The network round trip (`fetch` followed by
 * `response.json()`) is not modelled; its outcome is a parameter.
 */
module EnsCache {
  import opened Bets

  /**
   * What the ENS request would produce if it were made. `FetchFailed` is a
   * rejected `fetch` or `response.json()`; an HTTP error status whose body
   * is JSON does not reject, so it is `Fetched` with that body and is cached
   * like any other answer.
   */
  datatype FetchOutcome = Fetched(data: Identity) | FetchFailed

  /** One lookup: its answer (`None` is `null`), the cache afterwards, and whether the network was used. */
  datatype Lookup = Lookup(answer: Option<Identity>, cache: map<Address, Identity>, fetched: bool)

  /**
   * The second half of a lookup that missed: the response arrives, after
   * the two awaits, and `ensCache.set` runs whether or not the address was
   * cached in the meantime. Only that address's entry can change; a failure
   * answers `null` and changes nothing.
   */
  function Complete(c: map<Address, Identity>, address: Address, o: FetchOutcome): (l: Lookup)
    ensures l.fetched
    ensures l.cache.Keys == c.Keys + (if o.Fetched? then {address} else {})
    ensures forall a :: a in c && a != address ==> l.cache[a] == c[a]
    ensures o.Fetched? ==> l.answer == Some(o.data) && l.cache[address] == o.data
    ensures o.FetchFailed? ==> l.answer == None && l.cache == c
  {
    match o
    case Fetched(data) => Lookup(Some(data), c[address := data], true)
    case FetchFailed => Lookup(None, c, true)
  }

  /**
   * `fetchENSData(address)` against cache `c`, run to completion without
   * another lookup in between, the network answering `o` if asked. The
   * network is used exactly on a miss; a non-null answer is what the cache
   * then holds for the address; a null answer leaves the cache unchanged.
   */
  function Resolve(c: map<Address, Identity>, address: Address, o: FetchOutcome): (l: Lookup)
    ensures l.fetched <==> address !in c
    ensures l.answer.Some? ==> address in l.cache && l.cache[address] == l.answer.value
    ensures l.answer.None? ==> l.cache == c && o.FetchFailed?
  {
    if address in c then Lookup(Some(c[address]), c, false) else Complete(c, address, o)
  }

  /** A hit returns the stored value, makes no request and leaves the cache as it was. */
  lemma HitServedFromCache(c: map<Address, Identity>, address: Address, o: FetchOutcome)
    requires address in c
    ensures Resolve(c, address, o) == Lookup(Some(c[address]), c, false)
  {
  }

  /**
   * A miss always makes a request. A successful one stores its result under
   * that address and nowhere else; a failed one answers `null` and stores
   * nothing, so failures are never cached.
   */
  lemma MissFetches(c: map<Address, Identity>, address: Address, o: FetchOutcome)
    requires address !in c
    ensures Resolve(c, address, o).fetched
    ensures o.Fetched? ==> Resolve(c, address, o).answer == Some(o.data)
    ensures o.Fetched? ==> Resolve(c, address, o).cache.Keys == c.Keys + {address}
    ensures o.Fetched? ==> Resolve(c, address, o).cache[address] == o.data
    ensures o.FetchFailed? ==> Resolve(c, address, o).answer == None
    ensures o.FetchFailed? ==> Resolve(c, address, o).cache == c
  {
  }

  /** The cache only grows, and entries already present never change (there is no eviction). */
  lemma CacheMonotone(c: map<Address, Identity>, address: Address, o: FetchOutcome)
    ensures c.Keys <= Resolve(c, address, o).cache.Keys <= c.Keys + {address}
    ensures forall a :: a in c ==> Resolve(c, address, o).cache[a] == c[a]
  {
  }

  /**
   * Two lookups of the same address make at most one request, unless the
   * first request failed; after a successful first lookup the second one
   * returns the same value.
   */
  lemma SecondLookup(c: map<Address, Identity>, address: Address, o1: FetchOutcome, o2: FetchOutcome)
    ensures var l1 := Resolve(c, address, o1);
      var l2 := Resolve(l1.cache, address, o2);
      && (l1.fetched && l2.fetched ==> o1.FetchFailed?)
      && (l1.answer.Some? ==> !l2.fetched && l2.answer == l1.answer && l2.cache == l1.cache)
  {
  }

  /** The answers and cache after a sequence of lookups, each with the network outcome it would get. */
  function ResolveAll(c: map<Address, Identity>, addresses: seq<Address>, outcomes: seq<FetchOutcome>): map<Address, Identity>
    requires |addresses| == |outcomes|
    decreases addresses
  {
    if addresses == [] then c
    else ResolveAll(Resolve(c, addresses[0], outcomes[0]).cache, addresses[1..], outcomes[1..])
  }

  /**
   * Over any session of lookups the cache grows monotonically: nothing is
   * evicted or overwritten, and every new entry is an address that was looked
   * up and whose request succeeded, holding the data that request returned.
   */
  lemma {:induction false} SessionMonotone(c: map<Address, Identity>, addresses: seq<Address>, outcomes: seq<FetchOutcome>)
    requires |addresses| == |outcomes|
    ensures forall a :: a in c ==> a in ResolveAll(c, addresses, outcomes) && ResolveAll(c, addresses, outcomes)[a] == c[a]
    ensures forall a :: a in ResolveAll(c, addresses, outcomes) && a !in c ==>
      exists i :: 0 <= i < |addresses| && addresses[i] == a && outcomes[i] == Fetched(ResolveAll(c, addresses, outcomes)[a])
    decreases addresses
  {
    if addresses != [] {
      var c' := Resolve(c, addresses[0], outcomes[0]).cache;
      SessionMonotone(c', addresses[1..], outcomes[1..]);
      var r := ResolveAll(c, addresses, outcomes);
      assert r == ResolveAll(c', addresses[1..], outcomes[1..]);
      forall a | a in r && a !in c
        ensures exists i :: 0 <= i < |addresses| && addresses[i] == a && outcomes[i] == Fetched(r[a])
      {
        if a in c' {
          assert addresses[0] == a && outcomes[0] == Fetched(r[a]);
        } else {
          var i :| 0 <= i < |addresses[1..]| && addresses[1..][i] == a && outcomes[1..][i] == Fetched(r[a]);
          assert addresses[i + 1] == a && outcomes[i + 1] == Fetched(r[a]);
        }
      }
    }
  }

  // ---------------------------------------------------------------------
  // Overlapping lookups. The history feed is started without `await` and
  // the cards' click handlers start lookups of their own, so a lookup can
  // begin while another one is waiting for its response. Each begins by
  // testing the cache and, on a miss, completes later with `Complete`.
  // ---------------------------------------------------------------------

  /**
   * Two lookups of an uncached address that overlap both miss, so both
   * make a request, and the later response overwrites the entry the
   * earlier one stored: unlike lookups run one after the other, an entry
   * can change.
   */
  lemma OverlappingMissesOverwrite(c: map<Address, Identity>, address: Address, d1: Identity, d2: Identity)
    requires address !in c
    ensures var first := Complete(c, address, Fetched(d1));
      var second := Complete(first.cache, address, Fetched(d2));
      && first.fetched && second.fetched
      && first.answer == Some(d1) && second.cache[address] == d2
      && (d1 != d2 ==> second.cache[address] != first.cache[address])
  {
  }

  /** The cache after responses arrive for the given addresses, in the given order. */
  function CompleteAll(c: map<Address, Identity>, addresses: seq<Address>, outcomes: seq<FetchOutcome>): map<Address, Identity>
    requires |addresses| == |outcomes|
    decreases addresses
  {
    if addresses == [] then c
    else CompleteAll(Complete(c, addresses[0], outcomes[0]).cache, addresses[1..], outcomes[1..])
  }

  /**
   * Whatever the interleaving, the cache never loses a key; an entry of an
   * address with no successful response keeps its value; and every entry
   * that is new or changed holds the data of a successful response for that
   * address.
   */
  lemma {:induction false} InterleavedSession(c: map<Address, Identity>, addresses: seq<Address>, outcomes: seq<FetchOutcome>)
    requires |addresses| == |outcomes|
    ensures c.Keys <= CompleteAll(c, addresses, outcomes).Keys
    ensures forall a :: a in c && (forall i :: 0 <= i < |addresses| && addresses[i] == a ==> outcomes[i].FetchFailed?) ==>
      CompleteAll(c, addresses, outcomes)[a] == c[a]
    ensures forall a :: a in CompleteAll(c, addresses, outcomes) && (a !in c || CompleteAll(c, addresses, outcomes)[a] != c[a]) ==>
      exists i :: 0 <= i < |addresses| && addresses[i] == a && outcomes[i] == Fetched(CompleteAll(c, addresses, outcomes)[a])
    decreases addresses
  {
    if addresses != [] {
      var c' := Complete(c, addresses[0], outcomes[0]).cache;
      InterleavedSession(c', addresses[1..], outcomes[1..]);
      var r := CompleteAll(c, addresses, outcomes);
      assert r == CompleteAll(c', addresses[1..], outcomes[1..]);
      forall a | a in c && (forall i :: 0 <= i < |addresses| && addresses[i] == a ==> outcomes[i].FetchFailed?)
        ensures r[a] == c[a]
      {
        assert forall i :: 0 <= i < |addresses[1..]| && addresses[1..][i] == a ==> outcomes[1..][i].FetchFailed? by {
          forall i | 0 <= i < |addresses[1..]| && addresses[1..][i] == a ensures outcomes[1..][i].FetchFailed? {
            assert addresses[i + 1] == a;
          }
        }
        if addresses[0] == a {
          assert outcomes[0].FetchFailed?;
        }
      }
      forall a | a in r && (a !in c || r[a] != c[a])
        ensures exists i :: 0 <= i < |addresses| && addresses[i] == a && outcomes[i] == Fetched(r[a])
      {
        if a in c' && r[a] == c'[a] {
          assert addresses[0] == a && outcomes[0] == Fetched(r[a]);
        } else {
          var i :| 0 <= i < |addresses[1..]| && addresses[1..][i] == a && outcomes[1..][i] == Fetched(r[a]);
          assert addresses[i + 1] == a && outcomes[i + 1] == Fetched(r[a]);
        }
      }
    }
  }

  /** The page-wide `ensCache`. */
  class Resolver {
    /** `ensCache`: address to the ENS record fetched for it. */
    var ensCache: map<Address, Identity>
    /** The addresses requested from the ENS API so far, in order. */
    ghost var requests: seq<Address>

    constructor ()
      ensures ensCache == map[] && requests == []
    {
      ensCache := map[];
      requests := [];
    }

    /**
     * `fetchENSData(address)`, the network answering `o` if it is asked.
     * The answer and the new cache are those of `Resolve`; a request is
     * logged exactly when the address was not cached.
     */
    method FetchEnsData(address: Address, o: FetchOutcome) returns (answer: Option<Identity>)
      modifies this
      ensures Resolve(old(ensCache), address, o) == Lookup(answer, ensCache, address !in old(ensCache))
      ensures requests == old(requests) + (if address in old(ensCache) then [] else [address])
    {
      var cached := CheckCache(address);
      if cached.Some? {
        return cached;
      }
      answer := AwaitResponse(address, o);
    }

    /** Lines 10-12: the cache test; a hit is the answer, `None` means the lookup goes on to the network. */
    method CheckCache(address: Address) returns (cached: Option<Identity>)
      ensures cached.Some? <==> address in ensCache
      ensures cached.Some? ==> cached.value == ensCache[address]
    {
      if address in ensCache {
        cached := Some(ensCache[address]);
      } else {
        cached := None;
      }
    }

    /**
     * Lines 13-21, after a miss: the request is made, and when the response
     * arrives the entry is set unconditionally, even if another lookup has
     * cached the address in the meantime.
     */
    method AwaitResponse(address: Address, o: FetchOutcome) returns (answer: Option<Identity>)
      modifies this
      ensures Complete(old(ensCache), address, o) == Lookup(answer, ensCache, true)
      ensures requests == old(requests) + [address]
    {
      requests := requests + [address];
      match o {
        case Fetched(data) =>
          ensCache := ensCache[address := data];
          return Some(data);
        case FetchFailed =>
          return None;
      }
    }
  }
}
