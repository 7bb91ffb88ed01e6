/** One cache-aside cache: lookup, repository read and set are separate steps, writers delete keys,
    entries expire. Keys are account or transaction numbers. */
module CacheAside {
  import opened Domain

  /** The committed data at one instant. */
  datatype Snap<+V> = Snap(at: int, data: map<int, V>)

  /** A cached value and when it expires. History: the TTL it was set with, the snapshot its reader saw, the number
      of snapshots when it was set, and whether a delete of it was lost. */
  datatype Entry<+V> = Entry(value: V, expires: int, ttl: int, seen: nat, setAt: nat, delLost: bool)

  /** A reader that missed, and one that has read the repository and not yet set the key. */
  datatype Reader<+V> = Missed(key: int) | Fetched(key: int, value: V, seen: nat)

  /** The cache and its readers; history: every snapshot so far, the last being the current data. */
  datatype Cache<+V> = Cache(entries: map<int, Entry<V>>, readers: map<int, Reader<V>>, hist: seq<Snap<V>>)

  function Now<V>(c: Cache<V>): map<int, V>
    requires c.hist != []
  {
    c.hist[|c.hist| - 1].data
  }

  function Start<V>(data: map<int, V>): Cache<V> {
    Cache(map[], map[], [Snap(0, data)])
  }

  /** What GET returns: an entry only until it expires. */
  predicate Hit<V>(c: Cache<V>, key: int, now: int) {
    key in c.entries && now < c.entries[key].expires
  }

  function Get<V>(c: Cache<V>, key: int, now: int): Option<V> {
    if Hit(c, key, now) then Some(c.entries[key].value) else None
  }

  /** A miss, or a GET that failed. */
  function Miss<V>(c: Cache<V>, r: int, key: int): Cache<V> {
    c.(readers := c.readers[r := Missed(key)])
  }

  predicate CanFetch<V>(c: Cache<V>, r: int, k: nat) {
    r in c.readers && c.readers[r].Missed? && k < |c.hist| && c.readers[r].key in c.hist[k].data
  }

  /** The repository read. It sees some snapshot: the last one on the primary, perhaps an earlier one on a replica. */
  function Fetch<V>(c: Cache<V>, r: int, k: nat): Cache<V>
    requires CanFetch(c, r, k)
  {
    var key := c.readers[r].key;
    c.(readers := c.readers[r := Fetched(key, c.hist[k].data[key], k)])
  }

  /** SET with a TTL; the reader returns its value. */
  function Store<V>(c: Cache<V>, r: int, now: int, ttl: int): Cache<V>
    requires r in c.readers && c.readers[r].Fetched?
  {
    var f := c.readers[r];
    c.(entries := c.entries[f.key := Entry(f.value, now + ttl, ttl, f.seen, |c.hist|, false)], readers := c.readers - {r})
  }

  /** The reader ends without setting the key. */
  function Leave<V>(c: Cache<V>, r: int): Cache<V> {
    c.(readers := c.readers - {r})
  }

  /** DEL, or an eviction. */
  function Delete<V>(c: Cache<V>, keys: set<int>): Cache<V> {
    c.(entries := c.entries - keys)
  }

  /** A DEL that never reached the cache. */
  function LoseDelete<V>(c: Cache<V>, keys: set<int>): Cache<V> {
    c.(entries := map k | k in c.entries :: if k in keys then c.entries[k].(delLost := true) else c.entries[k])
  }

  /** The committed data at a new instant. */
  function Observe<V>(c: Cache<V>, at: int, data: map<int, V>): Cache<V> {
    c.(hist := c.hist + [Snap(at, data)])
  }

  // ---------------------------------------------------------------- how old a cached value can be

  predicate Shows<V(==)>(hist: seq<Snap<V>>, k: nat, key: int, value: V) {
    k < |hist| && key in hist[k].data && hist[k].data[key] == value
  }

  /** Every value held was committed in its snapshot, and no entry outlives that by more than its TTL and the gap. */
  predicate Timely<V(==)>(c: Cache<V>, gap: int) {
    && c.hist != []
    && (forall k <- c.entries ::
          && Shows(c.hist, c.entries[k].seen, k, c.entries[k].value)
          && c.entries[k].expires <= c.hist[c.entries[k].seen].at + c.entries[k].ttl + gap
          && c.entries[k].setAt <= |c.hist|)
    && (forall r <- c.readers :: c.readers[r].Fetched? ==>
          Shows(c.hist, c.readers[r].seen, c.readers[r].key, c.readers[r].value))
  }

  lemma ObserveTimely<V>(c: Cache<V>, at: int, data: map<int, V>, gap: int)
    requires Timely(c, gap)
    ensures Timely(Observe(c, at, data), gap)
  {
  }

  lemma ReaderTimely<V>(c: Cache<V>, r: int, k: nat, now: int, ttl: int, gap: int)
    requires Timely(c, gap)
    ensures CanFetch(c, r, k) ==> Timely(Fetch(c, r, k), gap)
    ensures r in c.readers && c.readers[r].Fetched? && now - c.hist[c.readers[r].seen].at <= gap ==>
              Timely(Store(c, r, now, ttl), gap)
  {
  }

  lemma OthersTimely<V>(c: Cache<V>, r: int, key: int, keys: set<int>, gap: int)
    requires Timely(c, gap)
    ensures Timely(Miss(c, r, key), gap) && Timely(Leave(c, r), gap)
    ensures Timely(Delete(c, keys), gap) && Timely(LoseDelete(c, keys), gap)
  {
  }

  // ---------------------------------------------------------------- why a cached value can be wrong

  /** Between the snapshot a reader saw and the given moment, the key held something else. */
  predicate Overtaken<V(==)>(hist: seq<Snap<V>>, key: int, value: V, seen: nat, until: nat) {
    exists k :: seen < k < until && k < |hist| && !Shows(hist, k, key, value)
  }

  /** An entry that is not the committed value has a cause: its reader was overtaken before it set the key, a delete
      was lost, or a delete is still to come (`pending`). */
  predicate Attributed<V(==)>(c: Cache<V>, pending: set<int>) {
    && c.hist != []
    && (forall k <- c.entries ::
          || Overtaken(c.hist, k, c.entries[k].value, c.entries[k].seen, c.entries[k].setAt)
          || c.entries[k].delLost
          || k in pending
          || Shows(c.hist, |c.hist| - 1, k, c.entries[k].value))
    && (forall r <- c.readers :: c.readers[r].Fetched? ==>
          || Overtaken(c.hist, c.readers[r].key, c.readers[r].value, c.readers[r].seen, |c.hist|)
          || Shows(c.hist, |c.hist| - 1, c.readers[r].key, c.readers[r].value))
  }

  lemma LongerHistory<V>(hist: seq<Snap<V>>, s: Snap<V>, key: int, value: V, seen: nat, until: nat)
    requires Overtaken(hist, key, value, seen, until)
    ensures Overtaken(hist + [s], key, value, seen, until) && Overtaken(hist + [s], key, value, seen, until + 1)
  {
    var k :| seen < k < until && k < |hist| && !Shows(hist, k, key, value);
    assert !Shows(hist + [s], k, key, value);
  }

  lemma ObserveAttributed<V>(c: Cache<V>, pending: set<int>, at: int, data: map<int, V>, pending': set<int>, gap: int)
    requires Timely(c, gap) && Attributed(c, pending) && pending <= pending'
    requires forall k <- Now(c) :: !(k in data && data[k] == Now(c)[k]) ==> k in pending' || (k in c.entries ==> c.entries[k].delLost)
    ensures Attributed(Observe(c, at, data), pending')
  {
    var s, c' := Snap(at, data), Observe(c, at, data);
    forall k | k in c.entries && Overtaken(c.hist, k, c.entries[k].value, c.entries[k].seen, c.entries[k].setAt)
      ensures Overtaken(c'.hist, k, c.entries[k].value, c.entries[k].seen, c.entries[k].setAt)
    {
      LongerHistory(c.hist, s, k, c.entries[k].value, c.entries[k].seen, c.entries[k].setAt);
    }
    forall r | r in c.readers && c.readers[r].Fetched?
      ensures Overtaken(c'.hist, c.readers[r].key, c.readers[r].value, c.readers[r].seen, |c'.hist|)
              || Shows(c'.hist, |c'.hist| - 1, c.readers[r].key, c.readers[r].value)
    {
      var f := c.readers[r];
      if Overtaken(c.hist, f.key, f.value, f.seen, |c.hist|) {
        LongerHistory(c.hist, s, f.key, f.value, f.seen, |c.hist|);
      } else {
        assert f.seen < |c.hist|;
      }
    }
  }

  lemma ReaderAttributed<V>(c: Cache<V>, pending: set<int>, r: int, k: nat, now: int, ttl: int)
    requires Attributed(c, pending)
    ensures CanFetch(c, r, k) ==> Attributed(Fetch(c, r, k), pending)
    ensures r in c.readers && c.readers[r].Fetched? ==> Attributed(Store(c, r, now, ttl), pending)
  {
    if CanFetch(c, r, k) {
      var f := Fetch(c, r, k).readers[r];
      if !Shows(c.hist, |c.hist| - 1, f.key, f.value) {
        assert k < |c.hist| - 1;
        assert Overtaken(c.hist, f.key, f.value, k, |c.hist|);
      }
    }
  }

  lemma OthersAttributed<V>(c: Cache<V>, pending: set<int>, r: int, key: int, keys: set<int>, pending': set<int>)
    requires Attributed(c, pending) && pending <= pending' + keys
    ensures Attributed(Miss(c, r, key), pending) && Attributed(Leave(c, r), pending)
    ensures Attributed(Delete(c, keys), pending') && Attributed(LoseDelete(c, keys), pending')
  {
  }
}
