/**
 * The in-memory query-embedding cache: a dictionary from query key to
 * (embedding, timestamp), with a time-to-live and a size bound that evicts
 * the earliest-inserted key.
 *
 * A Python dictionary remembers insertion order, and the cache relies on it
 * (eviction takes the first key). The model keeps that order explicitly: a
 * `Store` is the key-to-entry map plus the keys in insertion order.
 */
module Cache {
  import opened Wrappers
  import opened Lists
  import opened Records

  /** One cached value: the embedding and the clock reading when it was stored. */
  datatype Entry = Entry(embedding: Embedding, timestamp: real)

  /** The dictionary's contents together with its insertion order. */
  datatype Store = Store(entries: map<string, Entry>, order: seq<string>)

  /** The default bound on the number of entries. */
  const DefaultMaxSize: int := 100
  /** The default time-to-live, in seconds. */
  const DefaultTtlSeconds: real := 3600.0

  /** The order lists every key exactly once. */
  ghost predicate WellFormed(st: Store) {
    Distinct(st.order) && st.entries.Keys == Elems(st.order)
  }

  /** The most entries a cache with bound `maxSize` can hold. */
  function Capacity(maxSize: int): nat {
    if maxSize < 0 then 0 else maxSize
  }

  /** Under `WellFormed`, the dictionary has as many keys as the order has elements. */
  lemma SizeIsOrderLength(st: Store)
    requires WellFormed(st)
    ensures |st.entries| == |st.order|
  {
    ElemsCard(st.order);
    assert st.entries.Keys == Elems(st.order);
  }

  /** What `get` returns (cache.py:36-48): the embedding when present and not expired. */
  function Lookup(st: Store, q: string, now: real, ttl: real): Option<Embedding> {
    if q !in st.entries then None
    else if now - st.entries[q].timestamp > ttl then None
    else Some(st.entries[q].embedding)
  }

  /** The contents after `get`: an expired entry is deleted, nothing else changes. */
  function AfterLookup(st: Store, q: string, now: real, ttl: real): Store {
    if q in st.entries && now - st.entries[q].timestamp > ttl then
      Store(st.entries - {q}, Without(st.order, {q}))
    else st
  }

  /** Stores `q` without eviction: an existing key keeps its place, a new one goes last. */
  function Insert(st: Store, q: string, e: Embedding, now: real): Store {
    Store(st.entries[q := Entry(e, now)], if q in st.entries then st.order else st.order + [q])
  }

  /**
   * The contents after `set` (cache.py:58-69), or `None` where taking the
   * first key of an empty dictionary raises StopIteration.
   */
  function Put(st: Store, q: string, e: Embedding, now: real, maxSize: int): Option<Store> {
    if |st.entries| >= maxSize && q !in st.entries then
      if st.order == [] then None
      else Some(Insert(Store(st.entries - {st.order[0]}, st.order[1..]), q, e, now))
    else Some(Insert(st, q, e, now))
  }

  /** `Insert` keeps the order a faithful listing of the keys. */
  lemma InsertWellFormed(st: Store, q: string, e: Embedding, now: real)
    requires WellFormed(st)
    ensures WellFormed(Insert(st, q, e, now))
  {
    var r := Insert(st, q, e, now);
    if q !in st.entries {
      assert q !in st.order;
      assert r.entries.Keys == Elems(r.order) by {
        assert forall x :: x in r.order <==> x in st.order || x == q;
      }
      forall i, j | 0 <= i < j < |r.order| ensures r.order[i] != r.order[j] {
        assert r.order[i] == st.order[i];
        if j < |st.order| {
          assert r.order[j] == st.order[j];
        }
      }
    }
  }

  /** `Put` keeps the order a faithful listing of the keys. */
  lemma PutWellFormed(st: Store, q: string, e: Embedding, now: real, maxSize: int)
    requires WellFormed(st)
    ensures Put(st, q, e, now, maxSize).Some? ==> WellFormed(Put(st, q, e, now, maxSize).value)
  {
    if |st.entries| >= maxSize && q !in st.entries {
      if st.order != [] {
        TailWellFormed(st);
        InsertWellFormed(Store(st.entries - {st.order[0]}, st.order[1..]), q, e, now);
      }
    } else {
      InsertWellFormed(st, q, e, now);
    }
  }

  /** Dropping the oldest key of a well-formed store leaves a well-formed store. */
  lemma TailWellFormed(st: Store)
    requires WellFormed(st) && st.order != []
    ensures WellFormed(Store(st.entries - {st.order[0]}, st.order[1..]))
  {
    var t := st.order[1..];
    forall i, j | 0 <= i < j < |t| ensures t[i] != t[j] {
      assert t[i] == st.order[i + 1] && t[j] == st.order[j + 1];
    }
    forall x ensures x in Elems(t) <==> x in Elems(st.order) && x != st.order[0] {
      if x in t {
        var j :| 0 <= j < |t| && t[j] == x;
        assert st.order[j + 1] == x;
      }
      if x in st.order && x != st.order[0] {
        var j :| 0 <= j < |st.order| && st.order[j] == x;
        assert t[j - 1] == x;
      }
    }
  }

  lemma AfterLookupWellFormed(st: Store, q: string, now: real, ttl: real)
    requires WellFormed(st)
    ensures WellFormed(AfterLookup(st, q, now, ttl))
  {
    WithoutKeepsOrder(st.order, {q});
  }

  /** After `set(q, e)`, a `get(q)` within the time-to-live returns `e` (cache.py:50-69, 36-48). */
  lemma {:induction false} SetThenGet(st: Store, q: string, e: Embedding, now: real, maxSize: int, later: real, ttl: real)
    requires Put(st, q, e, now, maxSize).Some?
    requires later - now <= ttl
    ensures Lookup(Put(st, q, e, now, maxSize).value, q, later, ttl) == Some(e)
    ensures AfterLookup(Put(st, q, e, now, maxSize).value, q, later, ttl) == Put(st, q, e, now, maxSize).value
  {
    var r := Put(st, q, e, now, maxSize).value;
    assert r.entries[q] == Entry(e, now);
  }

  /** An entry is returned exactly when it is present and not older than the time-to-live. */
  lemma GetReturnsFresh(st: Store, q: string, now: real, ttl: real)
    ensures Lookup(st, q, now, ttl).Some? <==> q in st.entries && now - st.entries[q].timestamp <= ttl
    ensures Lookup(st, q, now, ttl).Some? ==> Lookup(st, q, now, ttl).value == st.entries[q].embedding
  {
  }

  /**
   * A `get` that finds an expired entry deletes it, so the size drops by one;
   * otherwise `get` changes nothing. Either way the surviving keys keep their order.
   */
  lemma {:induction false} GetExpiry(st: Store, q: string, now: real, ttl: real)
    requires WellFormed(st)
    ensures var r := AfterLookup(st, q, now, ttl);
      WellFormed(r) && IsSubsequence(r.order, st.order) &&
      (if q in st.entries && now - st.entries[q].timestamp > ttl
       then |r.entries| == |st.entries| - 1 && q !in r.entries
       else r == st)
  {
    AfterLookupWellFormed(st, q, now, ttl);
    WithoutKeepsOrder(st.order, {q});
    if !(q in st.entries && now - st.entries[q].timestamp > ttl) {
      SubsequenceReflexive(st.order);
    }
  }

  lemma {:induction false} SubsequenceReflexive(s: seq<string>)
    ensures IsSubsequence(s, s)
    decreases |s|
  {
    if s != [] {
      SubsequenceReflexive(s[1..]);
    }
  }

  /**
   * With `maxSize >= 1`, `set` never raises and keeps the size within the
   * bound; with `maxSize <= 0`, the first `set` on the empty cache raises
   * (cache.py:61-64).
   */
  lemma {:induction false} SetKeepsBound(st: Store, q: string, e: Embedding, now: real, maxSize: int)
    requires WellFormed(st) && |st.entries| <= Capacity(maxSize)
    ensures Put(st, q, e, now, maxSize).None? <==> maxSize <= 0 && st.entries == map[]
    ensures Put(st, q, e, now, maxSize).Some? ==>
      WellFormed(Put(st, q, e, now, maxSize).value) &&
      |Put(st, q, e, now, maxSize).value.entries| <= Capacity(maxSize)
  {
    SizeIsOrderLength(st);
    PutWellFormed(st, q, e, now, maxSize);
    if |st.entries| >= maxSize && q !in st.entries && st.order != [] {
      var old0 := st.order[0];
      assert old0 in Elems(st.order);
      var base := Store(st.entries - {old0}, st.order[1..]);
      assert |base.entries| == |st.entries| - 1;
      assert q != old0;
      assert |Insert(base, q, e, now).entries| == |base.entries| + 1;
    } else if q !in st.entries {
      assert |st.entries[q := Entry(e, now)]| == |st.entries| + 1;
    } else {
      assert st.entries[q := Entry(e, now)].Keys == st.entries.Keys;
    }
  }

  /**
   * `set` changes only the key being set and at most one other key, which
   * is evicted, and only when the cache is full and the key is new; the
   * evicted key is the earliest inserted. A key already present keeps its
   * position; a new key is appended (cache.py:61-69).
   */
  lemma {:induction false} SetChangesOnlyItsKey(st: Store, q: string, e: Embedding, now: real, maxSize: int)
    requires WellFormed(st)
    requires Put(st, q, e, now, maxSize).Some?
    ensures Put(st, q, e, now, maxSize).value.entries[q] == Entry(e, now)
    ensures forall k :: k in Put(st, q, e, now, maxSize).value.entries && k != q ==>
      k in st.entries && Put(st, q, e, now, maxSize).value.entries[k] == st.entries[k]
    ensures forall k :: k in st.entries && k != q && k !in Put(st, q, e, now, maxSize).value.entries ==>
      |st.entries| >= maxSize && q !in st.entries && k == st.order[0]
    ensures q in st.entries ==> Put(st, q, e, now, maxSize).value.order == st.order
    ensures q !in st.entries && |st.entries| < maxSize ==>
      Put(st, q, e, now, maxSize).value.order == st.order + [q]
    ensures q !in st.entries && |st.entries| >= maxSize ==>
      Put(st, q, e, now, maxSize).value.order == st.order[1..] + [q]
  {
  }

  /** The contents after `clear()` (cache.py:71-73). */
  function Cleared(): (st: Store)
    ensures WellFormed(st)
  {
    Store(map[], [])
  }

  /** After `clear()` the size is 0 and every `get` returns None (cache.py:71-77). */
  lemma ClearThenGet(q: string, now: real, ttl: real)
    ensures |Cleared().entries| == 0
    ensures Lookup(Cleared(), q, now, ttl) == None
  {
  }

  /**
   * The cache object. `now` stands for the `time.time()` reading the source
   * takes inside `get` and `set`; the key of a query is the query text itself.
   */
  class EmbeddingCache {
    var entries: map<string, Entry>
    var order: seq<string>
    const maxSize: int
    const ttlSeconds: real

    function State(): Store
      reads this
    {
      Store(entries, order)
    }

    ghost predicate Valid()
      reads this
    {
      WellFormed(State()) && |entries| <= Capacity(maxSize)
    }

    constructor(maxSize: int, ttlSeconds: real)
      ensures this.maxSize == maxSize && this.ttlSeconds == ttlSeconds
      ensures State() == Cleared()
      ensures Valid()
    {
      this.entries := map[];
      this.order := [];
      this.maxSize := maxSize;
      this.ttlSeconds := ttlSeconds;
    }

    method Get(query: string, now: real) returns (r: Option<Embedding>)
      requires Valid()
      modifies this
      ensures Valid()
      ensures r == Lookup(old(State()), query, now, ttlSeconds)
      ensures State() == AfterLookup(old(State()), query, now, ttlSeconds)
    {
      if query !in entries {
        return None;
      }
      var entry := entries[query];
      if now - entry.timestamp > ttlSeconds {
        GetExpiry(State(), query, now, ttlSeconds);
        entries := entries - {query};
        order := Without(order, {query});
        return None;
      }
      return Some(entry.embedding);
    }

    /** Returns `raised` when the eviction step raises StopIteration; the state is then unchanged. */
    method Set(query: string, embedding: Embedding, now: real) returns (raised: bool)
      requires Valid()
      modifies this
      ensures Valid()
      ensures raised <==> Put(old(State()), query, embedding, now, maxSize).None?
      ensures !raised ==> State() == Put(old(State()), query, embedding, now, maxSize).value
      ensures raised ==> State() == old(State())
    {
      SetKeepsBound(State(), query, embedding, now, maxSize);
      if |entries| >= maxSize && query !in entries {
        if order == [] {
          return true;
        }
        var oldest := order[0];
        entries := entries - {oldest};
        order := order[1..];
      }
      if query !in entries {
        order := order + [query];
      }
      entries := entries[query := Entry(embedding, now)];
      return false;
    }

    method Clear()
      requires Valid()
      modifies this
      ensures Valid()
      ensures State() == Cleared()
    {
      entries := map[];
      order := [];
    }

    /** The number of entries, which is the number of keys in insertion order. */
    function Size(): (n: nat)
      reads this
      requires Valid()
      ensures n == |order|
    {
      SizeIsOrderLength(State());
      |entries|
    }
  }
}
