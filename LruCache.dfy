/** The bounded least-recently-used cache of providers/cache.py: an
    `OrderedDict` kept in recency order (oldest key first) and a capacity
    `max_size`. The functions below give the meaning of each operation on the
    cache's abstract state; the class `LRUCache` carries out the same
    operations in place and is proved against them. */
module LruCache {
  import opened Wrappers

  /** What `__getitem__` raises for a key that is not cached. */
  datatype CacheError = KeyError(key: string)

  /** The observable state of a cache: its keys from least to most recently
      touched, the value stored under each key, and `max_size`. */
  datatype CacheState<V> = CacheState(order: seq<string>, entries: map<string, V>, maxSize: int)

  predicate Distinct(s: seq<string>) {
    forall i, j :: 0 <= i < j < |s| ==> s[i] != s[j]
  }

  /** The most entries a cache with this `max_size` can hold: a new key that
      makes `len(cache) > max_size` true is followed by one eviction, so a
      negative `max_size` behaves as 0. */
  function Capacity(maxSize: int): nat {
    if maxSize < 0 then 0 else maxSize
  }

  /** The representation invariant of the `OrderedDict`: every key once, the
      recency order and the dictionary agree on the keys, and the size stays
      within the capacity. */
  ghost predicate WellFormed<V>(c: CacheState<V>) {
    && Distinct(c.order)
    && (forall k :: k in c.entries <==> k in c.order)
    && |c.order| <= Capacity(c.maxSize)
  }

  /** The list `s` with `k` taken out. */
  function Without(s: seq<string>, k: string): (r: seq<string>)
    ensures k !in r
    ensures forall x :: x in r <==> x in s && x != k
    ensures Distinct(s) ==> Distinct(r)
    ensures Distinct(s) && k in s ==> |r| == |s| - 1
    ensures k !in s ==> r == s
  {
    if s == [] then []
    else if s[0] == k then
      assert Distinct(s) ==> k !in s[1..];
      Without(s[1..], k)
    else
      var r := [s[0]] + Without(s[1..], k);
      assert Distinct(s) ==> s[0] !in s[1..];
      r
  }

  /** `OrderedDict.move_to_end(key)`: `key` becomes the most recent. */
  function MoveToEnd(order: seq<string>, key: string): seq<string> {
    Without(order, key) + [key]
  }

  /** `cache[key] = value` (`__setitem__`, providers/cache.py:11-20). A key
      already present is only moved to the most recent end, its stored value
      is kept and `value` is discarded; a new key is appended and, when that
      makes the cache larger than `max_size`, the oldest key is dropped. */
  function SetItem<V>(c: CacheState<V>, key: string, value: V): CacheState<V> {
    if key in c.entries then
      c.(order := MoveToEnd(c.order, key))
    else
      var order := c.order + [key];
      var entries := c.entries[key := value];
      if |entries| > c.maxSize then
        CacheState(order[1..], entries - {order[0]}, c.maxSize)
      else
        CacheState(order, entries, c.maxSize)
  }

  /** `cache[key]` (`__getitem__`, providers/cache.py:22-27): the value and the
      state afterwards. A missing key raises `KeyError`; a present one is
      moved to the most recent end. */
  function GetItem<V>(c: CacheState<V>, key: string): (Result<V, CacheError>, CacheState<V>) {
    if key !in c.entries then (Failure(KeyError(key)), c)
    else (Success(c.entries[key]), c.(order := MoveToEnd(c.order, key)))
  }

  /** The values in recency order, as `values()` enumerates them. */
  function ValuesInOrder<V>(order: seq<string>, entries: map<string, V>): (vs: seq<V>)
    requires forall k :: k in order ==> k in entries
    ensures |vs| == |order|
    ensures forall i :: 0 <= i < |order| ==> vs[i] == entries[order[i]]
  {
    if order == [] then [] else [entries[order[0]]] + ValuesInOrder(order[1..], entries)
  }

  lemma MoveToEndWellFormed<V>(c: CacheState<V>, key: string)
    requires WellFormed(c) && key in c.entries
    ensures WellFormed(c.(order := MoveToEnd(c.order, key)))
    ensures |MoveToEnd(c.order, key)| == |c.order|
  {
    var r := MoveToEnd(c.order, key);
    assert Distinct(r) by {
      forall i, j | 0 <= i < j < |r| ensures r[i] != r[j] {
        if j == |r| - 1 {
          assert r[i] in Without(c.order, key);
        }
      }
    }
  }

  /** Every insertion keeps the cache well formed, in particular within its
      capacity (providers/cache.py:15-20). */
  lemma SetItemWellFormed<V>(c: CacheState<V>, key: string, value: V)
    requires WellFormed(c)
    ensures WellFormed(SetItem(c, key, value))
    ensures |SetItem(c, key, value).order| <= Capacity(c.maxSize)
  {
    if key in c.entries {
      MoveToEndWellFormed(c, key);
    } else {
      var order := c.order + [key];
      var entries := c.entries[key := value];
      assert Distinct(order);
      assert |entries| == |order| by {
        assert entries.Keys == set k | k in order;
        DistinctCardinality(order);
      }
      if |entries| > c.maxSize {
        var r := CacheState(order[1..], entries - {order[0]}, c.maxSize);
        assert forall k :: k in r.entries <==> k in r.order by {
          forall k ensures k in r.entries <==> k in r.order {
            assert k in order <==> k == order[0] || k in order[1..];
            if k in order[1..] {
              var i :| 0 <= i < |order[1..]| && order[1..][i] == k;
              assert order[i + 1] == k && i + 1 != 0;
            }
          }
        }
      }
    }
  }

  /** A list without repetitions has as many elements as its set. */
  lemma {:induction false} DistinctCardinality(s: seq<string>)
    requires Distinct(s)
    ensures |set k | k in s| == |s|
  {
    if s != [] {
      DistinctCardinality(s[1..]);
      assert (set k | k in s) == (set k | k in s[1..]) + {s[0]};
      assert s[0] !in s[1..];
    }
  }

  /** Setting a key that is already cached moves it to the most recent end
      and changes neither its value nor the size: the new value is dropped
      (providers/cache.py:12-14). */
  lemma SetExistingKeepsValue<V>(c: CacheState<V>, key: string, value: V)
    requires WellFormed(c) && key in c.entries
    ensures SetItem(c, key, value).entries == c.entries
    ensures SetItem(c, key, value).order == Without(c.order, key) + [key]
    ensures |SetItem(c, key, value).order| == |c.order|
  {
    MoveToEndWellFormed(c, key);
  }

  /** A new key in a full cache of positive capacity evicts exactly the
      oldest key and keeps every other entry (providers/cache.py:17-20). */
  lemma SetNewKeyEvictsOldest<V>(c: CacheState<V>, key: string, value: V)
    requires WellFormed(c) && key !in c.entries
    requires c.maxSize >= 1 && |c.order| == c.maxSize
    ensures var r := SetItem(c, key, value);
      && r.order == c.order[1..] + [key]
      && r.entries == (c.entries - {c.order[0]})[key := value]
      && |r.order| == |c.order|
  {
    var entries := c.entries[key := value];
    assert |entries| == |c.order| + 1 by {
      assert entries.Keys == (set k | k in c.order) + {key};
      DistinctCardinality(c.order);
    }
    assert c.order[0] != key;
  }

  /** A new key in a cache that is not full is appended and nothing is
      evicted. */
  lemma SetNewKeyWithRoom<V>(c: CacheState<V>, key: string, value: V)
    requires WellFormed(c) && key !in c.entries
    requires |c.order| < c.maxSize
    ensures SetItem(c, key, value) == CacheState(c.order + [key], c.entries[key := value], c.maxSize)
  {
    var entries := c.entries[key := value];
    assert |entries| == |c.order| + 1 by {
      assert entries.Keys == (set k | k in c.order) + {key};
      DistinctCardinality(c.order);
    }
  }

  /** Setting a key never invents an entry: every entry afterwards is an
      earlier one, unchanged, or the new key with the new value. */
  lemma SetItemEntries<V>(c: CacheState<V>, key: string, value: V)
    ensures forall k :: k in SetItem(c, key, value).entries ==>
      if k in c.entries then SetItem(c, key, value).entries[k] == c.entries[k]
      else k == key && SetItem(c, key, value).entries[k] == value
  {
  }

  /** A new key set in a well-formed cache of positive capacity is stored
      with its value and is the most recent key. */
  lemma SetNewKeyStored<V>(c: CacheState<V>, key: string, value: V)
    requires WellFormed(c) && key !in c.entries && c.maxSize >= 1
    ensures key in SetItem(c, key, value).entries && SetItem(c, key, value).entries[key] == value
    ensures var o := SetItem(c, key, value).order; |o| > 0 && o[|o| - 1] == key
  {
    if |c.order| < c.maxSize {
      SetNewKeyWithRoom(c, key, value);
    } else {
      SetNewKeyEvictsOldest(c, key, value);
    }
  }

  /** With `max_size == 0` a newly set key is evicted at once and the cache
      stays empty. */
  lemma ZeroCapacityStaysEmpty<V>(c: CacheState<V>, key: string, value: V)
    requires WellFormed(c) && c.maxSize == 0
    ensures SetItem(c, key, value).order == [] && SetItem(c, key, value).entries == map[]
  {
    assert c.order == [];
    assert forall k :: k !in c.entries;
  }

  /** Reading an absent key raises `KeyError` and changes nothing; reading a
      present key returns its stored value, makes it the most recent, and
      keeps the other keys in their relative order (providers/cache.py:22-27). */
  lemma GetItemEffect<V>(c: CacheState<V>, key: string)
    requires WellFormed(c)
    ensures var (r, after) := GetItem(c, key);
      && (key !in c.entries ==> r == Failure(KeyError(key)) && after == c)
      && (key in c.entries ==>
            && r == Success(c.entries[key])
            && after.entries == c.entries
            && after.order[|after.order| - 1] == key
            && Without(after.order, key) == Without(c.order, key)
            && WellFormed(after))
  {
    if key in c.entries {
      MoveToEndWellFormed(c, key);
      var o := MoveToEnd(c.order, key);
      WithoutAppendSelf(Without(c.order, key), key);
    }
  }

  lemma {:induction false} WithoutAppendSelf(s: seq<string>, k: string)
    requires k !in s
    ensures Without(s + [k], k) == s
  {
    if s != [] {
      assert (s + [k])[1..] == s[1..] + [k];
      WithoutAppendSelf(s[1..], k);
    } else {
      assert s + [k] == [k];
    }
  }

  class LRUCache<V> {
    var order: seq<string>
    var entries: map<string, V>
    const maxSize: int

    function State(): CacheState<V>
      reads this
    {
      CacheState(order, entries, maxSize)
    }

    ghost predicate Valid()
      reads this
    {
      WellFormed(State())
    }

    /** `LRUCache(max_size=...)`: an empty cache. */
    constructor (maxSize: int)
      ensures Valid()
      ensures State() == CacheState([], map[], maxSize)
    {
      order := [];
      entries := map[];
      this.maxSize := maxSize;
    }

    /** `cache[key] = value`. */
    method Set(key: string, value: V)
      requires Valid()
      modifies this
      ensures Valid()
      ensures State() == SetItem(old(State()), key, value)
    {
      SetItemWellFormed(State(), key, value);
      if key in entries {
        order := MoveToEnd(order, key);
      } else {
        entries := entries[key := value];
        order := order + [key];
        if |entries| > maxSize {
          var oldest := order[0];
          order := order[1..];
          entries := entries - {oldest};
        }
      }
    }

    /** `cache[key]`: the stored value, or `KeyError`; a hit is a touch. */
    method Get(key: string) returns (r: Result<V, CacheError>)
      requires Valid()
      modifies this
      ensures Valid()
      ensures (r, State()) == GetItem(old(State()), key)
    {
      GetItemEffect(State(), key);
      if key !in entries {
        return Failure(KeyError(key));
      }
      order := MoveToEnd(order, key);
      r := Success(entries[key]);
    }

    /** `key in cache`: reads the dictionary only, so recency is untouched. */
    function Contains(key: string): (b: bool)
      requires Valid()
      reads this
      ensures b <==> key in order
    {
      key in entries
    }

    /** `keys()`: every cached key once, oldest first. */
    function Keys(): (ks: seq<string>)
      requires Valid()
      reads this
      ensures ks == order
      ensures Distinct(ks)
      ensures forall k :: k in ks <==> k in entries
      ensures |ks| <= Capacity(maxSize)
    {
      order
    }

    /** `values()`: the stored values in the same recency order as `keys()`. */
    function Values(): (vs: seq<V>)
      requires Valid()
      reads this
      ensures |vs| == |order|
      ensures forall i :: 0 <= i < |order| ==> vs[i] == entries[order[i]]
    {
      ValuesInOrder(order, entries)
    }
  }
}
