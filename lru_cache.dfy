/**
  The class `LruCache` of `LruCache.php`: a fixed capacity and the ordered
  array `$data`, updated in place by `get`, `set` and `remove`. The array is
  kept as two fields, the key order `keys` (first = least recently used) and
  the contents `vals`; each method is proved against the function of module
  LruSpec that describes it.
 */
module LruCacheClass {
  import opened LruSpec

  class LruCache<V> {
    /** The capacity, fixed by the constructor. */
    const size: nat
    /** The keys of `$data` in array order, least recently used first. */
    var keys: seq<Key>
    /** The entries of `$data`. */
    var vals: map<Key, V>

    /** The cache as a value. */
    function Model(): (c: Cache<V>)
      reads this
    {
      Cache(size, keys, vals)
    }

    ghost predicate Valid()
      reads this
    {
      Inv(Model())
    }

    constructor (n: nat)
      requires n > 0
      ensures Valid() && Model() == Cache(n, [], map[])
    {
      size := n;
      keys := [];
      vals := map[];
    }

    /** `__construct`: refuses a size that is not an integer greater than zero. */
    static method Create(size: PhpValue) returns (r: Result<LruCache<V>>)
      ensures r.Ok? <==> New<V>(size).Ok?
      ensures r.Ok? ==> fresh(r.value) && r.value.Valid() && r.value.Model() == New<V>(size).value
    {
      if !size.PhpInt? || size.i <= 0 {
        return Err(InvalidArgument);
      }
      var cache := new LruCache(size.i);
      r := Ok(cache);
    }

    /** `get`: fails on a missing key; otherwise returns the value and makes the key the last used. */
    method Get(key: Key) returns (r: Result<V>)
      requires Valid()
      modifies this
      ensures Valid()
      ensures (Model(), r) == LruSpec.Get(old(Model()), key)
      ensures r.Err? <==> key !in old(vals)
      ensures r.Err? ==> Model() == old(Model())
      ensures r.Ok? ==> r.value == old(vals)[key] && vals == old(vals) && keys[|keys| - 1] == key
    {
      if key !in vals {
        return Err(InvalidArgument);
      }
      var value := vals[key];
      ChangeKeyToLastUsed(key, value);
      r := Ok(value);
    }

    /**
      `set`: fails on a key that is neither an integer nor a string, before any
      change; overwrites and promotes an existing key; otherwise appends the key,
      first evicting the least recently used entry when the cache is full.
     */
    method Set(key: PhpValue, value: V) returns (r: Result<()>)
      requires Valid()
      modifies this
      ensures Valid()
      ensures r.Err? <==> LruSpec.Set(old(Model()), key, value).Err?
      ensures r.Err? ==> Model() == old(Model())
      ensures r.Ok? ==> Model() == LruSpec.Set(old(Model()), key, value).value
    {
      if !key.PhpString? && !key.PhpInt? {
        return Err(InvalidArgument);
      }
      var k := KeyOf(key).value;
      if k in vals {
        ChangeKeyToLastUsed(k, value);
        return Ok(());
      }
      if |keys| == size {
        RemoveEarliestUsedKey();
      }
      AppendNoDup(keys, k);
      keys := keys + [k];
      vals := vals[k := value];
      r := Ok(());
    }

    /** `remove`: deletes the key if present; a missing key is not an error. */
    method Remove(key: Key)
      requires Valid()
      modifies this
      ensures Valid()
      ensures Model() == LruSpec.Remove(old(Model()), key)
    {
      keys := RemoveKey(keys, key);
      vals := vals - {key};
    }

    /** `removeEarliestUsedKey`: `array_shift` on the array drops its first entry. */
    method RemoveEarliestUsedKey()
      requires Valid()
      modifies this
      ensures Valid()
      ensures Model() == LruSpec.RemoveEarliestUsedKey(old(Model()))
    {
      if keys != [] {
        vals := vals - {keys[0]};
        keys := keys[1..];
      }
    }

    /** `changeKeyToLastUsed`: unsets the key and stores it again, so that it comes last. */
    method ChangeKeyToLastUsed(key: Key, value: V)
      requires Valid() && key in vals
      modifies this
      ensures Valid()
      ensures Model() == LruSpec.ChangeKeyToLastUsed(old(Model()), key, value)
    {
      ghost var after := LruSpec.ChangeKeyToLastUsed(Model(), key, value);
      keys := RemoveKey(keys, key);
      vals := vals - {key};
      keys := keys + [key];
      vals := vals[key := value];
      assert Model() == after;
    }
  }
}
