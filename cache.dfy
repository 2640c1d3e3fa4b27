/**
 * The application's in-process response cache, the limiter that spaces out forced
 * refreshes, and the record a comparison request is cached under. The wall clock is a
 * parameter (`now`, seconds since the epoch); the lock that makes each operation atomic
 * is left out because every method here already runs as one step.
 */
module Cache {
  import opened Wrappers
  import opened Text
  import Utils

  // ---------------------------------------------------------------------------
  // Key order

  /** No key appears twice. */
  predicate Distinct(s: seq<string>) {
    forall i, j | 0 <= i < j < |s| :: s[i] != s[j]
  }

  /** `s` with `k` taken out, the rest in the same order (what `del` does to a dict's key order). */
  function Without(s: seq<string>, k: string): seq<string> {
    if s == [] then [] else (if s[0] == k then [] else [s[0]]) + Without(s[1..], k)
  }

  lemma {:induction false} WithoutFacts(s: seq<string>, k: string)
    ensures forall x :: x in Without(s, k) <==> x in s && x != k
    ensures Distinct(s) ==> Distinct(Without(s, k))
    ensures Distinct(s) && k in s ==> |Without(s, k)| == |s| - 1
    ensures k !in s ==> Without(s, k) == s
  {
    if s != [] {
      WithoutFacts(s[1..], k);
      assert s == [s[0]] + s[1..];
      if Distinct(s) {
        assert Distinct(s[1..]) by {
          forall i, j | 0 <= i < j < |s[1..]| ensures s[1..][i] != s[1..][j] {
            assert s[1..][i] == s[i + 1] && s[1..][j] == s[j + 1];
          }
        }
        assert s[0] !in s[1..] by {
          forall j | 0 <= j < |s[1..]| ensures s[1..][j] != s[0] {
            assert s[1..][j] == s[j + 1];
          }
        }
        var w := Without(s[1..], k);
        if s[0] != k {
          assert Without(s, k) == [s[0]] + w;
          forall i, j | 0 <= i < j < |[s[0]] + w| ensures ([s[0]] + w)[i] != ([s[0]] + w)[j] {
            if i == 0 {
              assert ([s[0]] + w)[j] == w[j - 1];
              assert w[j - 1] in w;
            } else {
              assert ([s[0]] + w)[i] == w[i - 1] && ([s[0]] + w)[j] == w[j - 1];
            }
          }
        } else {
          assert Without(s, k) == w;
        }
      }
    }
  }

  lemma AppendNew(s: seq<string>, k: string)
    requires Distinct(s) && k !in s
    ensures Distinct(s + [k])
  {
    forall i, j | 0 <= i < j < |s + [k]| ensures (s + [k])[i] != (s + [k])[j] {
      if j == |s| {
        assert (s + [k])[i] == s[i];
        assert s[i] in s;
      }
    }
  }

  /** A list without repeats has as many distinct elements as it has elements. */
  lemma {:induction false} DistinctCard(s: seq<string>)
    requires Distinct(s)
    ensures |set x | x in s| == |s|
  {
    if s != [] {
      var t := s[1..];
      assert Distinct(t) by {
        forall i, j | 0 <= i < j < |t| ensures t[i] != t[j] {
          assert t[i] == s[i + 1] && t[j] == s[j + 1];
        }
      }
      DistinctCard(t);
      assert s[0] !in t by {
        forall j | 0 <= j < |t| ensures t[j] != s[0] {
          assert t[j] == s[j + 1];
        }
      }
      assert (set x | x in s) == (set x | x in t) + {s[0]} by {
        assert s == [s[0]] + t;
      }
    }
  }

  // ---------------------------------------------------------------------------
  // InMemoryCache

  /** A cached value and the instant, in seconds since the epoch, after which it is stale. */
  datatype CacheEntry<V> = CacheEntry(value: V, expiresAt: real)

  const DefaultMaxSize: int := 100
  const DefaultTtlSeconds: int := 900

  /** `ttl or self._ttl_seconds`: an absent or zero lifetime falls back to the cache's own. */
  function Lifetime(ttl: Option<int>, fallback: int): int {
    if ttl.None? || ttl.value == 0 then fallback else ttl.value
  }

  /** The first key of least expiry is the only index with both properties `OldestIndex` promises. */
  lemma OldestIndexUnique<V>(order: seq<string>, entries: map<string, CacheEntry<V>>, b: nat)
    requires forall k | k in order :: k in entries
    requires b < |order|
    requires forall j | 0 <= j < |order| :: entries[order[b]].expiresAt <= entries[order[j]].expiresAt
    requires forall j | 0 <= j < b :: entries[order[b]].expiresAt < entries[order[j]].expiresAt
    ensures b == OldestIndex(order, entries)
  {
    var k := OldestIndex(order, entries);
    assert entries[order[k]].expiresAt <= entries[order[b]].expiresAt;
    assert entries[order[b]].expiresAt <= entries[order[k]].expiresAt;
  }

  /**
   * `min(keys, key=expires_at)` over the keys in insertion order: the position of the
   * entry that expires first, the earliest such position on a tie.
   */
  function OldestIndex<V>(order: seq<string>, entries: map<string, CacheEntry<V>>): (i: nat)
    requires order != []
    requires forall k | k in order :: k in entries
    ensures i < |order|
    ensures forall j | 0 <= j < |order| :: entries[order[i]].expiresAt <= entries[order[j]].expiresAt
    ensures forall j | 0 <= j < i :: entries[order[i]].expiresAt < entries[order[j]].expiresAt
    decreases |order|
  {
    if |order| == 1 then 0
    else
      var front := order[..|order| - 1];
      assert forall j | 0 <= j < |front| :: front[j] == order[j];
      var k := OldestIndex(front, entries);
      if entries[order[|order| - 1]].expiresAt < entries[order[k]].expiresAt then |order| - 1 else k
  }

  /**
   * A dictionary from keys to entries, kept as the dictionary's keys in insertion order
   * (`order`) beside the key-to-entry map (`entries`).
   */
  class InMemoryCache<V> {
    var order: seq<string>
    var entries: map<string, CacheEntry<V>>
    const maxSize: int
    const ttlSeconds: int

    /** Both views hold the same keys, each once; a positive capacity is never exceeded. */
    ghost predicate Valid()
      reads this
    {
      && (forall k :: k in entries <==> k in order)
      && Distinct(order)
      && (maxSize >= 1 ==> |order| <= maxSize)
    }

    /** `len(self._cache)` is the number of keys in insertion order. */
    lemma SizeIsLength()
      requires Valid()
      ensures |entries| == |order|
    {
      DistinctCard(order);
      assert entries.Keys == set x | x in order;
    }

    constructor (maxSize: int, ttlSeconds: int)
      ensures Valid()
      ensures this.maxSize == maxSize && this.ttlSeconds == ttlSeconds
      ensures entries == map[] && order == []
    {
      this.maxSize := maxSize;
      this.ttlSeconds := ttlSeconds;
      entries := map[];
      order := [];
    }

    /**
     * `get`: a missing key gives `None`; a key whose expiry instant has passed is deleted
     * and gives `None`; otherwise the stored value, up to and including the expiry instant.
     */
    method Get(key: string, now: real) returns (r: Option<V>)
      requires Valid()
      modifies this
      ensures Valid()
      ensures key !in old(entries) ==> r == None && entries == old(entries) && order == old(order)
      ensures key in old(entries) && now > old(entries)[key].expiresAt ==>
        r == None && entries == old(entries) - {key} && order == Without(old(order), key)
      ensures key in old(entries) && now <= old(entries)[key].expiresAt ==>
        r == Some(old(entries)[key].value) && entries == old(entries) && order == old(order)
    {
      if key !in entries {
        return None;
      }
      var entry := entries[key];
      if now > entry.expiresAt {
        WithoutFacts(order, key);
        entries := entries - {key};
        order := Without(order, key);
        return None;
      }
      return Some(entry.value);
    }

    /** The scan of `_evict_oldest`: the index of the entry that expires first, the earliest among equals. */
    method FindOldest() returns (best: nat)
      requires Valid() && order != []
      ensures best == OldestIndex(order, entries)
    {
      var keys, es := order, entries;
      assert forall k | k in keys :: k in es;
      best := 0;
      var i := 1;
      while i < |keys|
        invariant 1 <= i <= |keys| && best < i
        invariant forall j | 0 <= j < i :: es[keys[best]].expiresAt <= es[keys[j]].expiresAt
        invariant forall j | 0 <= j < best :: es[keys[best]].expiresAt < es[keys[j]].expiresAt
      {
        if es[keys[i]].expiresAt < es[keys[best]].expiresAt {
          best := i;
        }
        i := i + 1;
      }
      OldestIndexUnique(keys, es, best);
    }

    /**
     * `_evict_oldest`: nothing on an empty cache; otherwise deletes the one entry that
     * expires first, the earliest inserted among equals.
     */
    method EvictOldest()
      requires Valid()
      modifies this
      ensures Valid()
      ensures old(order) == [] ==> entries == old(entries) && order == old(order)
      ensures old(order) != [] ==>
        var victim := old(order)[OldestIndex(old(order), old(entries))];
        entries == old(entries) - {victim} && order == Without(old(order), victim)
      ensures old(order) != [] ==> |order| == |old(order)| - 1
    {
      if order == [] {
        return;
      }
      var best := FindOldest();
      var victim := order[best];
      WithoutFacts(order, victim);
      entries := entries - {victim};
      order := Without(order, victim);
    }

    /**
     * `set`: the entry for `key` becomes `value`, stale `Lifetime(ttl, ttlSeconds)` seconds
     * from `now`. A key already present keeps its place; a new key goes last, after the
     * entry that expires first has been evicted when the cache is at capacity.
     */
    method Set(key: string, value: V, ttl: Option<int>, now: real)
      requires Valid()
      modifies this
      ensures Valid()
      ensures key in entries && entries[key] == CacheEntry(value, now + Lifetime(ttl, ttlSeconds) as real)
      ensures key in old(entries) ==>
        entries == old(entries)[key := entries[key]] && order == old(order)
      ensures key !in old(entries) && (|old(order)| < maxSize || old(order) == []) ==>
        entries == old(entries)[key := entries[key]] && order == old(order) + [key]
      ensures key !in old(entries) && |old(order)| >= maxSize && old(order) != [] ==>
        var victim := old(order)[OldestIndex(old(order), old(entries))];
        entries == (old(entries) - {victim})[key := entries[key]]
        && order == Without(old(order), victim) + [key]
    {
      var expiresAt := now + Lifetime(ttl, ttlSeconds) as real;
      SizeIsLength();
      if |entries| >= maxSize && key !in entries {
        EvictOldest();
      }
      if key !in entries {
        AppendNew(order, key);
        order := order + [key];
      }
      entries := entries[key := CacheEntry(value, expiresAt)];
    }

    /** `clear`: no entries remain; the capacity and default lifetime are kept. */
    method Clear()
      requires Valid()
      modifies this
      ensures Valid()
      ensures entries == map[] && order == []
    {
      entries := map[];
      order := [];
    }
  }

  // ---------------------------------------------------------------------------
  // RateLimiter

  const DefaultWindowSeconds: int := 60

  /**
   * The answer of `check_and_update` for a key last refreshed at `last` (0 when never):
   * allowed exactly when a whole window has passed, and otherwise the seconds still to
   * wait, rounded down.
   */
  function RateDecision(last: real, window: int, now: real): (r: (bool, int))
    ensures r.0 <==> now - last >= window as real
    ensures r.0 ==> r.1 == 0
    ensures !r.0 ==> 0 <= r.1 && r.1 as real <= window as real - (now - last) < r.1 as real + 1.0
    ensures !r.0 && last <= now ==> r.1 <= window
  {
    var elapsed := now - last;
    if elapsed >= window as real then (true, 0)
    else (false, Utils.Truncate(window as real - elapsed))
  }

  /** Per-key time of the last allowed forced refresh. */
  class RateLimiter {
    var lastRefresh: map<string, real>
    const windowSeconds: int

    constructor (windowSeconds: int)
      ensures lastRefresh == map[] && this.windowSeconds == windowSeconds
    {
      this.windowSeconds := windowSeconds;
      lastRefresh := map[];
    }

    /** `self._last_refresh.get(key, 0)` */
    function LastRefresh(key: string): real
      reads this
    {
      if key in lastRefresh then lastRefresh[key] else 0.0
    }

    /**
     * `check_and_update`: decides by `RateDecision`; an allowed refresh records `now`
     * for this key and for no other, a refused one changes nothing.
     */
    method CheckAndUpdate(key: string, now: real) returns (allowed: bool, remaining: int)
      modifies this
      ensures (allowed, remaining) == RateDecision(old(LastRefresh(key)), windowSeconds, now)
      ensures allowed ==> lastRefresh == old(lastRefresh)[key := now]
      ensures !allowed ==> lastRefresh == old(lastRefresh)
    {
      var lastTime := LastRefresh(key);
      var elapsed := now - lastTime;
      if elapsed >= windowSeconds as real {
        lastRefresh := lastRefresh[key := now];
        return true, 0;
      } else {
        return false, Utils.Truncate(windowSeconds as real - elapsed);
      }
    }
  }

  // ---------------------------------------------------------------------------
  // Cache keys

  /** Python's `<=` on strings: lexicographic by code point. */
  predicate StrLe(a: string, b: string) {
    a == [] || (b != [] && (a[0] < b[0] || (a[0] == b[0] && StrLe(a[1..], b[1..]))))
  }

  lemma {:induction false} StrLeTotal(a: string, b: string)
    ensures StrLe(a, b) || StrLe(b, a)
  {
    if a != [] && b != [] && a[0] == b[0] {
      StrLeTotal(a[1..], b[1..]);
    }
  }

  lemma {:induction false} StrLeAntisymmetric(a: string, b: string)
    requires StrLe(a, b) && StrLe(b, a)
    ensures a == b
  {
    if a != [] && b != [] {
      StrLeAntisymmetric(a[1..], b[1..]);
      assert a == [a[0]] + a[1..] && b == [b[0]] + b[1..];
    }
  }

  lemma {:induction false} StrLeTransitive(a: string, b: string, c: string)
    requires StrLe(a, b) && StrLe(b, c)
    ensures StrLe(a, c)
  {
    if a != [] && b != [] && c != [] && a[0] == b[0] && b[0] == c[0] {
      StrLeTransitive(a[1..], b[1..], c[1..]);
    }
  }

  predicate SortedStrings(s: seq<string>) {
    forall i, j | 0 <= i < j < |s| :: StrLe(s[i], s[j])
  }

  /** One insertion step of `sorted`. */
  function InsertString(x: string, s: seq<string>): (r: seq<string>)
    requires SortedStrings(s)
    ensures SortedStrings(r)
    ensures multiset(r) == multiset(s) + multiset{x}
  {
    if s == [] then [x]
    else if StrLe(x, s[0]) then
      InsertInFront(x, s);
      [x] + s
    else
      SortedTail(s);
      var rest := InsertString(x, s[1..]);
      InsertBehindHead(x, s, rest);
      [s[0]] + rest
  }

  lemma InsertInFront(x: string, s: seq<string>)
    requires SortedStrings(s) && s != [] && StrLe(x, s[0])
    ensures SortedStrings([x] + s) && multiset([x] + s) == multiset(s) + multiset{x}
  {
    var t := [x] + s;
    forall i, j | 0 <= i < j < |t| ensures StrLe(t[i], t[j]) {
      assert t[j] == s[j - 1];
      if i == 0 {
        if j > 1 { StrLeTransitive(x, s[0], s[j - 1]); }
      } else {
        assert t[i] == s[i - 1];
      }
    }
  }

  lemma InsertBehindHead(x: string, s: seq<string>, rest: seq<string>)
    requires SortedStrings(s) && s != [] && !StrLe(x, s[0])
    requires SortedStrings(rest) && multiset(rest) == multiset(s[1..]) + multiset{x}
    ensures SortedStrings([s[0]] + rest) && multiset([s[0]] + rest) == multiset(s) + multiset{x}
  {
    StrLeTotal(x, s[0]);
    assert s == [s[0]] + s[1..];
    forall k | 0 <= k < |rest| ensures StrLe(s[0], rest[k]) {
      var y := rest[k];
      assert y in multiset(rest);
      if y != x {
        assert y in multiset(s[1..]);
        var j :| 0 <= j < |s[1..]| && s[1..][j] == y;
        assert s[1..][j] == s[j + 1];
      }
    }
    forall i, j | 0 <= i < j < |[s[0]] + rest| ensures StrLe(([s[0]] + rest)[i], ([s[0]] + rest)[j]) {
      assert ([s[0]] + rest)[j] == rest[j - 1];
      if i > 0 {
        assert ([s[0]] + rest)[i] == rest[i - 1];
      }
    }
  }

  /** `sorted(sources)` */
  function SortStrings(s: seq<string>): (r: seq<string>)
    ensures SortedStrings(r)
    ensures multiset(r) == multiset(s)
  {
    if s == [] then []
    else
      assert s == [s[0]] + s[1..];
      InsertString(s[0], SortStrings(s[1..]))
  }

  lemma SortedTail(a: seq<string>)
    requires SortedStrings(a) && a != []
    ensures SortedStrings(a[1..])
  {
    forall p, q | 0 <= p < q < |a[1..]| ensures StrLe(a[1..][p], a[1..][q]) {
      assert a[1..][p] == a[p + 1] && a[1..][q] == a[q + 1];
    }
  }

  /** The head of a sorted list is at or below everything in it. */
  lemma SortedHeadLeast(a: seq<string>, x: string)
    requires SortedStrings(a) && x in multiset(a)
    ensures a != [] && StrLe(a[0], x)
  {
    var i :| 0 <= i < |a| && a[i] == x;
    if i == 0 {
      StrLeTotal(x, x);
    }
  }

  /** Two sorted lists with the same elements are the same list. */
  lemma {:induction false} SortedUnique(a: seq<string>, b: seq<string>)
    requires SortedStrings(a) && SortedStrings(b)
    requires multiset(a) == multiset(b)
    ensures a == b
  {
    if a == [] {
      assert |multiset(b)| == 0;
    } else {
      SameHead(a, b);
      SameTailElements(a, b);
      SortedTail(a);
      SortedTail(b);
      SortedUnique(a[1..], b[1..]);
      assert a == [a[0]] + a[1..] && b == [b[0]] + b[1..];
    }
  }

  lemma SameHead(a: seq<string>, b: seq<string>)
    requires SortedStrings(a) && SortedStrings(b)
    requires multiset(a) == multiset(b) && a != []
    ensures b != [] && a[0] == b[0]
  {
    assert a[0] in multiset(a);
    SortedHeadLeast(b, a[0]);
    SortedHeadLeast(a, b[0]);
    StrLeAntisymmetric(a[0], b[0]);
  }

  lemma SameTailElements(a: seq<string>, b: seq<string>)
    requires a != [] && b != [] && a[0] == b[0] && multiset(a) == multiset(b)
    ensures multiset(a[1..]) == multiset(b[1..])
  {
    assert a == [a[0]] + a[1..] && b == [b[0]] + b[1..];
    assert multiset(a[1..]) == multiset(a) - multiset{a[0]};
    assert multiset(b[1..]) == multiset(b) - multiset{b[0]};
  }

  /**
   * The record `make_cache_key` hashes: the four request texts lowercased and the sources
   * sorted. The hash of its JSON text is left out, so equal records stand for equal keys.
   */
  datatype CacheKey = CacheKey(brandA: string, productA: string, brandB: string, productB: string,
                               sources: seq<string>)

  function MakeCacheKey(brandA: string, productA: string, brandB: string, productB: string,
                        sources: seq<string>): (k: CacheKey)
    ensures k.brandA == Lower(brandA) && k.productA == Lower(productA)
    ensures k.brandB == Lower(brandB) && k.productB == Lower(productB)
    ensures AllLower(k.brandA) && AllLower(k.productA) && AllLower(k.brandB) && AllLower(k.productB)
    ensures SortedStrings(k.sources) && multiset(k.sources) == multiset(sources)
  {
    LowerIsLower(brandA);
    LowerIsLower(productA);
    LowerIsLower(brandB);
    LowerIsLower(productB);
    CacheKey(Lower(brandA), Lower(productA), Lower(brandB), Lower(productB), SortStrings(sources))
  }

  /** Listing the same sources in another order gives the same key. */
  lemma SourceOrderIgnored(brandA: string, productA: string, brandB: string, productB: string,
                           s1: seq<string>, s2: seq<string>)
    requires multiset(s1) == multiset(s2)
    ensures MakeCacheKey(brandA, productA, brandB, productB, s1)
         == MakeCacheKey(brandA, productA, brandB, productB, s2)
  {
    SortedUnique(SortStrings(s1), SortStrings(s2));
  }

  /**
   * Two requests share a key exactly when their texts agree after lowercasing and they list
   * the same sources, in any order.
   */
  lemma SameKeyIff(a1: string, p1: string, b1: string, q1: string, s1: seq<string>,
                   a2: string, p2: string, b2: string, q2: string, s2: seq<string>)
    ensures MakeCacheKey(a1, p1, b1, q1, s1) == MakeCacheKey(a2, p2, b2, q2, s2) <==>
      && Lower(a1) == Lower(a2) && Lower(p1) == Lower(p2)
      && Lower(b1) == Lower(b2) && Lower(q1) == Lower(q2)
      && multiset(s1) == multiset(s2)
  {
    if multiset(s1) == multiset(s2) {
      SortedUnique(SortStrings(s1), SortStrings(s2));
    }
  }

  lemma LowerTwice(s: string)
    ensures Lower(Lower(s)) == Lower(s)
  {
    forall i | 0 <= i < |s| ensures Lower(Lower(s))[i] == Lower(s)[i] {
      LowerCharFacts(s[i]);
    }
  }

  /** Requests that differ only in letter case share a key. */
  lemma CaseIgnored(brandA: string, productA: string, brandB: string, productB: string,
                    sources: seq<string>)
    ensures MakeCacheKey(Lower(brandA), Lower(productA), Lower(brandB), Lower(productB), sources)
         == MakeCacheKey(brandA, productA, brandB, productB, sources)
  {
    LowerTwice(brandA);
    LowerTwice(productA);
    LowerTwice(brandB);
    LowerTwice(productB);
  }
}
