/**
 * The embedding service: single-text embeddings go through the query cache,
 * batches go straight to the provider.
 *
 * The provider (a network call) is an oracle that returns a vector or an
 * error; the service records every request it makes, so that "no provider
 * call" can be stated.
 */
module Embeddings {
  import opened Wrappers
  import opened Records
  import opened Cache

  /** The embedding provider: one text, or a list of texts in one request. */
  datatype Provider = Provider(
    embedOne: string -> Result<Embedding, string>,
    embedMany: seq<string> -> Result<seq<Embedding>, string>)

  /** A request sent to the provider. */
  datatype Request = One(text: string) | Many(texts: seq<string>)

  class EmbeddingService {
    const provider: Provider
    /** The query cache; `null` when the service is built without one. */
    const cache: EmbeddingCache?
    /** Every provider request so far, oldest first. */
    var requests: seq<Request>

    ghost predicate Valid()
      reads this, cache
    {
      cache != null ==>
        cache.Valid() && cache.maxSize == DefaultMaxSize && cache.ttlSeconds == DefaultTtlSeconds
    }

    /** A cache with the default bound and time-to-live when `useCache`, none otherwise (embeddings.py:22). */
    constructor(useCache: bool, provider: Provider)
      ensures Valid()
      ensures this.provider == provider && requests == []
      ensures (cache != null) == useCache
      ensures cache != null ==> fresh(cache) && cache.State() == Cleared()
    {
      this.provider := provider;
      if useCache {
        cache := new EmbeddingCache(DefaultMaxSize, DefaultTtlSeconds);
      } else {
        cache := null;
      }
      requests := [];
    }

    /** What a single-text request for `text` yields at time `now`: the live cached vector, or the provider's answer. */
    function Outcome(text: string, now: real): Result<Embedding, string>
      reads this, cache
    {
      if cache != null && Lookup(cache.State(), text, now, DefaultTtlSeconds).Some?
      then Ok(Lookup(cache.State(), text, now, DefaultTtlSeconds).value)
      else provider.embedOne(text)
    }

    /**
     * A cache hit returns the cached vector with no provider request. A miss,
     * or a service without cache, sends exactly one request and, on success,
     * stores the vector in the cache (embeddings.py:24-51). A provider error
     * propagates; `now` is the clock reading.
     */
    method GenerateEmbedding(text: string, now: real) returns (r: Result<Embedding, string>)
      requires Valid()
      modifies this, cache
      ensures Valid()
      ensures r == old(Outcome(text, now))
      ensures cache == null ==> r == provider.embedOne(text) && requests == old(requests) + [One(text)]
      ensures cache != null && Lookup(old(cache.State()), text, now, DefaultTtlSeconds).Some? ==>
        r == Ok(Lookup(old(cache.State()), text, now, DefaultTtlSeconds).value) &&
        requests == old(requests) && cache.State() == old(cache.State())
      ensures cache != null && Lookup(old(cache.State()), text, now, DefaultTtlSeconds).None? ==>
        && r == provider.embedOne(text) && requests == old(requests) + [One(text)]
        && (r.Ok? ==> Put(AfterLookup(old(cache.State()), text, now, DefaultTtlSeconds), text, r.value, now, DefaultMaxSize) == Some(cache.State()))
        && (r.Err? ==> cache.State() == AfterLookup(old(cache.State()), text, now, DefaultTtlSeconds))
    {
      if cache != null {
        var cached := cache.Get(text, now);
        if cached.Some? {
          return Ok(cached.value);
        }
      }
      requests := requests + [One(text)];
      r := provider.embedOne(text);
      if r.Err? {
        return;
      }
      if cache != null {
        SetKeepsBound(cache.State(), text, r.value, now, cache.maxSize);
        var raised := cache.Set(text, r.value, now);
      }
    }

    /**
     * An empty batch returns `[]` with no request; otherwise one request
     * carries all texts and its answer is returned as is (embeddings.py:53-70).
     * The cache is neither read nor written.
     */
    method GenerateEmbeddingsBatch(texts: seq<string>) returns (r: Result<seq<Embedding>, string>)
      modifies this
      ensures texts == [] ==> r == Ok([]) && requests == old(requests)
      ensures texts != [] ==> r == provider.embedMany(texts) && requests == old(requests) + [Many(texts)]
    {
      if texts == [] {
        return Ok([]);
      }
      requests := requests + [Many(texts)];
      r := provider.embedMany(texts);
    }
  }

  /**
   * Two single-text requests for the same text, the second within the
   * time-to-live of the first: the first stores its vector, so the second
   * is a hit that returns it (embeddings.py:35-38, 48-49).
   */
  lemma RepeatedQueryHits(st: Store, text: string, e: Embedding, now: real, later: real)
    requires WellFormed(st) && |st.entries| <= Capacity(DefaultMaxSize)
    requires later - now <= DefaultTtlSeconds
    ensures Put(AfterLookup(st, text, now, DefaultTtlSeconds), text, e, now, DefaultMaxSize).Some?
    ensures Lookup(Put(AfterLookup(st, text, now, DefaultTtlSeconds), text, e, now, DefaultMaxSize).value,
      text, later, DefaultTtlSeconds) == Some(e)
  {
    var mid := AfterLookup(st, text, now, DefaultTtlSeconds);
    GetExpiry(st, text, now, DefaultTtlSeconds);
    SetKeepsBound(mid, text, e, now, DefaultMaxSize);
    SetThenGet(mid, text, e, now, DefaultMaxSize, later, DefaultTtlSeconds);
  }
}
