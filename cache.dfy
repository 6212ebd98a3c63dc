/** The in-memory cache with lazy expiry: a map from key to a value and the
    instant it expires. `get` and `has` evict an expired entry they meet;
    nothing else does, so `keys` and `size` still count expired entries
    that have not been looked at. `Date.now()` is the parameter `now` (ms),
    and `order` is the key order of the underlying JavaScript `Map`. */
module TtlCache {
  import opened Wrappers

  /** Five minutes, the default time to live. */
  const DefaultTtl: int := 5 * 60 * 1000

  /** A cached value and its expiry instant (the source calls it
      `timestamp`). */
  datatype Item<V> = Item(value: V, expiry: int)

  /** No key occurs twice. */
  predicate Distinct(s: seq<string>) {
    forall i, j :: 0 <= i < j < |s| ==> s[i] != s[j]
  }

  /** `s` without the occurrences of `k`, order kept. */
  function Without(s: seq<string>, k: string): (r: seq<string>)
    ensures forall x :: x in r <==> x in s && x != k
  {
    if s == [] then []
    else Without(s[..|s| - 1], k) + (if s[|s| - 1] == k then [] else [s[|s| - 1]])
  }

  lemma {:induction false} WithoutDistinct(s: seq<string>, k: string)
    requires Distinct(s)
    ensures Distinct(Without(s, k))
  {
    if s != [] {
      var init := s[..|s| - 1];
      var last := s[|s| - 1];
      assert Distinct(init) by {
        forall i, j | 0 <= i < j < |init| ensures init[i] != init[j] {
          assert init[i] == s[i] && init[j] == s[j];
        }
      }
      WithoutDistinct(init, k);
      forall i | 0 <= i < |init| ensures init[i] != last {
        assert init[i] == s[i];
      }
      var w := Without(init, k);
      var tail := if last == k then [] else [last];
      assert Without(s, k) == w + tail;
      forall i, j | 0 <= i < j < |w + tail| ensures (w + tail)[i] != (w + tail)[j] {
        assert (w + tail)[i] == w[i] && w[i] in w;
        if j < |w| {
          assert (w + tail)[j] == w[j];
        }
      }
    }
  }

  /** A list without repetitions has as many elements as the set of them. */
  lemma {:induction false} DistinctCard(s: seq<string>)
    requires Distinct(s)
    ensures |set x | x in s| == |s|
  {
    if s != [] {
      var init := s[..|s| - 1];
      var last := s[|s| - 1];
      assert Distinct(init) by {
        forall i, j | 0 <= i < j < |init| ensures init[i] != init[j] {
          assert init[i] == s[i] && init[j] == s[j];
        }
      }
      DistinctCard(init);
      forall i | 0 <= i < |init| ensures init[i] != last {
        assert init[i] == s[i];
      }
      assert (set x | x in s) == (set x | x in init) + {last} by {
        assert s == init + [last];
      }
    }
  }

  class Cache<V> {
    var entries: map<string, Item<V>>
    var order: seq<string>

    /** `order` lists each stored key once. */
    ghost predicate Valid()
      reads this
    {
      Distinct(order) && forall k :: k in entries <==> k in order
    }

    /** What a lookup at `now` finds: the value of an entry that has not
        expired (`now <= expiry`), else nothing. */
    function Lookup(key: string, now: int): (r: Option<V>)
      reads this
      ensures r.Some? <==> (key in entries && now <= entries[key].expiry)
      ensures r.Some? ==> r.value == entries[key].value
    {
      if key in entries && now <= entries[key].expiry then Some(entries[key].value) else None
    }

    constructor()
      ensures Valid() && entries == map[] && order == []
    {
      entries := map[];
      order := [];
    }

    /** `set(key, value, options)`: stores the value with expiry
        `now + ttl` (ttl defaults to five minutes), replacing any entry for
        the key; a new key goes last, an existing key keeps its place. */
    method Set(key: string, value: V, ttl: Option<int>, now: int)
      requires Valid()
      modifies this
      ensures Valid()
      ensures entries == old(entries)[key := Item(value, now + ttl.GetOr(DefaultTtl))]
      ensures order == if key in old(entries) then old(order) else old(order) + [key]
      ensures forall t :: now <= t <= now + ttl.GetOr(DefaultTtl) ==> Lookup(key, t) == Some(value)
    {
      if key !in entries {
        order := order + [key];
      }
      entries := entries[key := Item(value, now + ttl.GetOr(DefaultTtl))];
    }

    /** `get(key)`: the live value; an expired entry is evicted and reads
        as missing. */
    method Get(key: string, now: int) returns (r: Option<V>)
      requires Valid()
      modifies this
      ensures Valid()
      ensures r == old(Lookup(key, now))
      ensures key in old(entries) && now > old(entries)[key].expiry
        ==> entries == old(entries) - {key} && order == Without(old(order), key)
      ensures !(key in old(entries) && now > old(entries)[key].expiry)
        ==> entries == old(entries) && order == old(order)
    {
      if key !in entries {
        return None;
      }
      var item := entries[key];
      if now > item.expiry {
        Remove(key);
        return None;
      }
      return Some(item.value);
    }

    /** `has(key)`: whether a live entry exists, evicting an expired one. */
    method Has(key: string, now: int) returns (present: bool)
      requires Valid()
      modifies this
      ensures Valid()
      ensures present <==> old(Lookup(key, now)).Some?
      ensures key in old(entries) && now > old(entries)[key].expiry
        ==> entries == old(entries) - {key} && order == Without(old(order), key)
      ensures !(key in old(entries) && now > old(entries)[key].expiry)
        ==> entries == old(entries) && order == old(order)
    {
      if key !in entries {
        return false;
      }
      if now > entries[key].expiry {
        Remove(key);
        return false;
      }
      return true;
    }

    /** `delete(key)`: removes that key and no other. */
    method Remove(key: string)
      requires Valid()
      modifies this
      ensures Valid()
      ensures entries == old(entries) - {key}
      ensures order == Without(old(order), key)
    {
      WithoutDistinct(order, key);
      entries := entries - {key};
      order := Without(order, key);
    }

    /** `clear()`. */
    method Clear()
      modifies this
      ensures Valid() && entries == map[] && order == []
    {
      entries := map[];
      order := [];
    }

    /** `keys()`: the stored keys, expired or not, in insertion order. */
    function Keys(): (ks: seq<string>)
      reads this
      requires Valid()
      ensures Distinct(ks)
      ensures forall k :: k in ks <==> k in entries
    {
      order
    }

    /** `size()`: the number of stored entries, expired or not. */
    function Size(): (n: nat)
      reads this
      requires Valid()
      ensures n == |entries.Keys| == |Keys()|
    {
      DistinctCard(order);
      assert (set x | x in order) == entries.Keys;
      |order|
    }
  }
}
