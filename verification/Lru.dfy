/**
  The LRU cache. A list element is known by its key, as no key has two elements: ll is the order
  of the elements, most recently used first, and cache holds their values.
*/
module Lru {
  import opened Options

  /** The fields of an LRU; maxCount 0 means no limit. */
  datatype State<V> = State(maxCount: nat, ll: seq<nat>, cache: map<nat, V>)

  ghost predicate NoRepeats(s: seq<nat>) {
    forall i, j :: 0 <= i < j < |s| ==> s[i] != s[j]
  }

  function Elems(s: seq<nat>): set<nat> {
    if s == [] then {} else {s[0]} + Elems(s[1..])
  }

  lemma {:induction false} ElemsAre(s: seq<nat>)
    ensures forall k :: k in Elems(s) <==> k in s
  {
    if s != [] {
      ElemsAre(s[1..]);
      assert s == [s[0]] + s[1..];
    }
  }

  /** List and map hold the same keys, once each, and not too many. */
  ghost predicate Sound<V>(l: State<V>) {
    && NoRepeats(l.ll)
    && Elems(l.ll) == l.cache.Keys
    && (l.maxCount != 0 ==> |l.ll| <= l.maxCount)
  }

  function Without(s: seq<nat>, key: nat): seq<nat> {
    if s == [] then []
    else if s[0] == key then s[1..]
    else [s[0]] + Without(s[1..], key)
  }

  lemma {:induction false} WithoutKeeps(s: seq<nat>, key: nat)
    requires NoRepeats(s)
    ensures NoRepeats(Without(s, key))
    ensures forall k :: k in Without(s, key) <==> k in s && k != key
    ensures |Without(s, key)| == if key in s then |s| - 1 else |s|
  {
    if s != [] {
      assert s == [s[0]] + s[1..];
      assert s[0] !in s[1..];
      if s[0] != key {
        WithoutKeeps(s[1..], key);
      }
    }
  }

  /** list.MoveToFront, and list.PushFront for a key that is not there. */
  function ToFront(s: seq<nat>, key: nat): seq<nat> {
    [key] + Without(s, key)
  }

  function AfterOldest<V>(l: State<V>): State<V> {
    if l.ll == [] then l
    else
      var n := |l.ll| - 1;
      l.(ll := l.ll[..n], cache := l.cache - {l.ll[n]})
  }

  function AfterPut<V>(l: State<V>, key: nat, value: V): State<V> {
    if key in l.cache then
      l.(ll := ToFront(l.ll, key), cache := l.cache[key := value])
    else
      var more := l.(ll := [key] + l.ll, cache := l.cache[key := value]);
      if l.maxCount != 0 && |more.ll| > l.maxCount then AfterOldest(more) else more
  }

  function AfterGet<V>(l: State<V>, key: nat): State<V> {
    if key in l.cache then l.(ll := ToFront(l.ll, key)) else l
  }

  function AfterRemove<V>(l: State<V>, key: nat): State<V> {
    if key in l.cache then l.(ll := Without(l.ll, key), cache := l.cache - {key}) else l
  }

  lemma FrontSound<V>(l: State<V>, key: nat, value: V)
    requires Sound(l) && key in l.cache
    ensures Sound(l.(ll := ToFront(l.ll, key), cache := l.cache[key := value]))
    ensures |ToFront(l.ll, key)| == |l.ll|
  {
    WithoutKeeps(l.ll, key);
    ElemsAre(l.ll);
    ElemsAre(ToFront(l.ll, key));
  }

  lemma RemoveOldestSound<V>(l: State<V>)
    requires NoRepeats(l.ll) && Elems(l.ll) == l.cache.Keys && (l.maxCount != 0 ==> |l.ll| <= l.maxCount + 1)
    ensures l.ll != [] ==> Sound(AfterOldest(l))
  {
    if l.ll != [] {
      var n := |l.ll| - 1;
      assert l.ll == l.ll[..n] + [l.ll[n]];
      assert l.ll[n] !in l.ll[..n];
      ElemsAre(l.ll);
      ElemsAre(l.ll[..n]);
    }
  }

  /** Putting keeps the cache sound; the new value is in, and a cache with room loses nothing. */
  lemma PutSound<V>(l: State<V>, key: nat, value: V)
    requires Sound(l)
    ensures Sound(AfterPut(l, key, value))
    ensures l.maxCount == 0 || |l.ll| < l.maxCount || key in l.cache ==>
              AfterPut(l, key, value).cache == l.cache[key := value] &&
              |AfterPut(l, key, value).ll| == if key in l.cache then |l.ll| else |l.ll| + 1
    ensures AfterPut(l, key, value).cache.Keys <= l.cache.Keys + {key} && key in AfterPut(l, key, value).cache
  {
    if key in l.cache {
      FrontSound(l, key, value);
    } else {
      var more := l.(ll := [key] + l.ll, cache := l.cache[key := value]);
      ElemsAre(l.ll);
      ElemsAre(more.ll);
      RemoveOldestSound(more);
    }
  }

  lemma RemoveSound<V>(l: State<V>, key: nat)
    requires Sound(l)
    ensures Sound(AfterRemove(l, key))
    ensures AfterRemove(l, key).cache == l.cache - {key}
    ensures |AfterRemove(l, key).ll| == if key in l.cache then |l.ll| - 1 else |l.ll|
  {
    WithoutKeeps(l.ll, key);
    ElemsAre(l.ll);
    ElemsAre(Without(l.ll, key));
    assert key !in l.cache ==> l.cache - {key} == l.cache;
  }

  class LRU<V> {
    const maxCount: nat
    var ll: seq<nat>
    var cache: map<nat, V>

    ghost function Value(): State<V>
      reads this
    {
      State(maxCount, ll, cache)
    }

    constructor (maxCount: nat)
      ensures Value() == State(maxCount, [], map[])
    {
      this.maxCount := maxCount;
      ll, cache := [], map[];
    }

    method Put(key: nat, value: V)
      requires Sound(Value())
      modifies this
      ensures Value() == AfterPut(old(Value()), key, value) && Sound(Value())
    {
      PutSound(Value(), key, value);
      if key in cache {
        ll := ToFront(ll, key);
        cache := cache[key := value];
        return;
      }
      ll := [key] + ll;
      cache := cache[key := value];
      if maxCount != 0 && |ll| > maxCount {
        RemoveOldest();
      }
    }

    method Get(key: nat) returns (r: Option<V>)
      requires Sound(Value())
      modifies this
      ensures r == if key in old(cache) then Some(old(cache)[key]) else None
      ensures Value() == AfterGet(old(Value()), key) && Sound(Value())
    {
      if key in cache {
        FrontSound(Value(), key, cache[key]);
        assert cache[key := cache[key]] == cache;
        ll := ToFront(ll, key);
        return Some(cache[key]);
      }
      return None;
    }

    method Peek(key: nat) returns (r: Option<V>)
      ensures r == if key in cache then Some(cache[key]) else None
    {
      if key in cache {
        return Some(cache[key]);
      }
      return None;
    }

    /** Whether the key was there. */
    method Remove(key: nat) returns (ok: bool)
      requires Sound(Value())
      modifies this
      ensures ok <==> key in old(cache)
      ensures Value() == AfterRemove(old(Value()), key) && Sound(Value())
    {
      RemoveSound(Value(), key);
      if key in cache {
        ll := Without(ll, key);
        cache := cache - {key};
        return true;
      }
      return false;
    }

    method RemoveOldest()
      modifies this
      ensures Value() == AfterOldest(old(Value()))
    {
      if ll != [] {
        var n := |ll| - 1;
        var key := ll[n];
        ll := ll[..n];
        cache := cache - {key};
      }
    }

    method GetAndRemoveOldest() returns (r: Option<nat>)
      modifies this
      ensures r == if old(ll) == [] then None else Some(old(ll)[|old(ll)| - 1])
      ensures Value() == AfterOldest(old(Value()))
    {
      if ll == [] {
        return None;
      }
      r := Some(ll[|ll| - 1]);
      RemoveOldest();
    }
  }
}
