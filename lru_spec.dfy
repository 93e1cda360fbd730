/**
  The value-level model of the bounded LRU cache of `LruCache.php`.

  A cache is a capacity `size` together with the PHP array `$data`, which is an
  insertion-ordered map: its order is kept here as the sequence `keys` (first =
  least recently used, last = most recently used) and its contents as the map
  `vals`. Every operation of the cache is a function on such values; the class
  in module LruCacheClass is proved against these functions.
 */
module LruSpec {

  /** A key accepted by the cache: the cache stores only integer and string keys. */
  datatype Key = IntKey(i: int) | StrKey(s: string)

  /** A PHP value handed to the cache, told apart by its run-time type. */
  datatype PhpValue =
    | PhpInt(i: int)
    | PhpString(s: string)
    | PhpBool(b: bool)
    | PhpFloat(f: real)
    | PhpNull
    | PhpArray(items: seq<PhpValue>)
    | PhpObject

  /** Every failure of the cache is an `\InvalidArgumentException`; its message is not modelled. */
  datatype Error = InvalidArgument

  datatype Result<T> = Ok(value: T) | Err(error: Error)

  /** The PHP value that a key stands for. */
  function PhpOf(k: Key): (v: PhpValue)
    ensures v.PhpInt? || v.PhpString?
  {
    match k
    case IntKey(i) => PhpInt(i)
    case StrKey(s) => PhpString(s)
  }

  /** The type check of `set`: only integers and strings are keys. */
  function KeyOf(v: PhpValue): (r: Result<Key>)
    ensures r.Ok? <==> v.PhpInt? || v.PhpString?
    ensures r.Ok? ==> PhpOf(r.value) == v
  {
    match v
    case PhpInt(i) => Ok(IntKey(i))
    case PhpString(s) => Ok(StrKey(s))
    case _ => Err(InvalidArgument)
  }

  lemma KeyOfPhpOf(k: Key)
    ensures KeyOf(PhpOf(k)) == Ok(k)
  {
  }

  /** Each element of `s` occurs once: the keys of a PHP array are distinct. */
  ghost predicate NoDup<T>(s: seq<T>) {
    s == [] || (s[0] !in s[1..] && NoDup(s[1..]))
  }

  /** Without duplicates, two different positions hold different elements. */
  lemma {:induction false} NoDupIndex<T>(s: seq<T>, i: nat, j: nat)
    requires NoDup(s) && i < j < |s|
    ensures s[i] != s[j]
  {
    assert s[j] == s[1..][j - 1];
    if i > 0 {
      assert s[i] == s[1..][i - 1];
      NoDupIndex(s[1..], i - 1, j - 1);
    }
  }

  /** A prefix of a sequence without duplicates has none. */
  lemma {:induction false} NoDupPrefix<T>(s: seq<T>, n: nat)
    requires NoDup(s) && n <= |s|
    ensures NoDup(s[..n])
  {
    if n > 0 {
      assert s[..n][1..] == s[1..][..n - 1];
      NoDupPrefix(s[1..], n - 1);
    }
  }

  /** In `a + b` without duplicates, the first element of `b` is not in `a`. */
  lemma NoDupJoin<T>(a: seq<T>, b: seq<T>)
    requires NoDup(a + b) && b != []
    ensures b[0] !in a
  {
    if b[0] in a {
      var i :| 0 <= i < |a| && a[i] == b[0];
      assert (a + b)[i] == a[i] && (a + b)[|a|] == b[0];
      NoDupIndex(a + b, i, |a|);
    }
  }

  /** The position of `k` in `s`: its first occurrence. */
  function IndexOf<T(==)>(s: seq<T>, k: T): (i: nat)
    requires k in s
    ensures i < |s| && s[i] == k
    ensures forall j :: 0 <= j < i ==> s[j] != k
  {
    if s[0] == k then 0 else 1 + IndexOf(s[1..], k)
  }

  /** `s` without `k`, the order of the other elements kept: PHP's `unset` on the key order. */
  function RemoveKey<T(==,!new)>(s: seq<T>, k: T): (r: seq<T>)
    ensures forall x :: x in r <==> x in s && x != k
    ensures k !in s ==> r == s
    ensures |r| <= |s|
    ensures NoDup(s) ==> NoDup(r)
  {
    if s == [] then []
    else if s[0] == k then RemoveKey(s[1..], k)
    else
      var rest := RemoveKey(s[1..], k);
      assert s[0] !in rest || s[0] in s[1..];
      [s[0]] + rest
  }

  lemma SpliceCons<T>(s: seq<T>, i: nat)
    requires 0 < i < |s|
    ensures [s[0]] + (s[1..][..i - 1] + s[1..][i..]) == s[..i] + s[i + 1..]
  {
    assert [s[0]] + s[1..][..i - 1] == s[..i];
    assert s[1..][i..] == s[i + 1..];
  }

  /** In a sequence without duplicates, removing the element at `i` splices it out. */
  lemma {:induction false} RemoveKeyAt<T(!new)>(s: seq<T>, i: nat)
    requires NoDup(s) && i < |s|
    ensures RemoveKey(s, s[i]) == s[..i] + s[i + 1..]
  {
    if i == 0 {
      assert s[..0] + s[1..] == s[1..];
    } else {
      assert s[0] != s[i];
      assert RemoveKey(s, s[i]) == [s[0]] + RemoveKey(s[1..], s[i]);
      assert s[1..][i - 1] == s[i];
      RemoveKeyAt(s[1..], i - 1);
      SpliceCons(s, i);
    }
  }

  /** Appending an element that is not yet there keeps a sequence free of duplicates. */
  lemma {:induction false} AppendNoDup<T>(s: seq<T>, x: T)
    requires NoDup(s) && x !in s
    ensures NoDup(s + [x])
  {
    if s != [] {
      assert (s + [x])[1..] == s[1..] + [x];
      AppendNoDup(s[1..], x);
    }
  }

  /** The cache: its capacity `size` and the ordered array `$data` as key order plus contents. */
  datatype Cache<V> = Cache(size: nat, keys: seq<Key>, vals: map<Key, V>)

  /**
    The invariant every operation keeps: a positive capacity, at most `size`
    entries, each key once, and the key order lists exactly the stored keys.
   */
  ghost predicate Inv<V>(c: Cache<V>) {
    && c.size > 0
    && |c.keys| <= c.size
    && NoDup(c.keys)
    && forall k :: k in c.vals <==> k in c.keys
  }

  /** Number of entries, PHP's `count($this->data)`. */
  function Count<V>(c: Cache<V>): (n: nat) {
    |c.keys|
  }

  /** The constructor: the size must be an integer greater than zero; the cache starts empty. */
  function New<V>(size: PhpValue): (r: Result<Cache<V>>)
    ensures r.Ok? <==> size.PhpInt? && size.i > 0
    ensures r.Ok? ==> Inv(r.value) && r.value.size == size.i && r.value.vals == map[] && Count(r.value) == 0
  {
    if size.PhpInt? && size.i > 0 then Ok(Cache(size.i, [], map[])) else Err(InvalidArgument)
  }

  /** Moving a present key to the end keeps the other keys in order and adds or loses none. */
  lemma MoveToEnd<T(!new)>(s: seq<T>, k: T)
    requires NoDup(s) && k in s
    ensures var t := RemoveKey(s, k) + [k];
      && t == s[..IndexOf(s, k)] + s[IndexOf(s, k) + 1..] + [k]
      && NoDup(t) && |t| == |s|
      && forall x :: x in t <==> x in s
  {
    var rest := RemoveKey(s, k);
    RemoveKeyAt(s, IndexOf(s, k));
    AppendNoDup(rest, k);
  }

  /** `changeKeyToLastUsed`: unset `k`, then store it again with `v`, so it comes last. */
  function ChangeKeyToLastUsed<V>(c: Cache<V>, k: Key, v: V): (d: Cache<V>)
    requires Inv(c) && k in c.vals
    ensures Inv(d) && d.size == c.size && Count(d) == Count(c)
    ensures d.vals == c.vals[k := v]
    ensures var i := IndexOf(c.keys, k); d.keys == c.keys[..i] + c.keys[i + 1..] + [k]
  {
    MoveToEnd(c.keys, k);
    var vals := (c.vals - {k})[k := v];
    assert vals == c.vals[k := v];
    Cache(c.size, RemoveKey(c.keys, k) + [k], vals)
  }

  /** `removeEarliestUsedKey`: `array_shift` drops the first, least recently used, entry. */
  function RemoveEarliestUsedKey<V>(c: Cache<V>): (d: Cache<V>)
    requires Inv(c)
    ensures Inv(d) && d.size == c.size
    ensures c.keys == [] ==> d == c
    ensures c.keys != [] ==> d.keys == c.keys[1..] && d.vals == c.vals - {c.keys[0]} && Count(d) == Count(c) - 1
  {
    if c.keys == [] then c
    else
      Cache(c.size, c.keys[1..], c.vals - {c.keys[0]})
  }

  /**
    `get`: a miss fails and changes nothing; a hit returns the stored value and
    moves the key to the most recently used end, the other keys keeping their order.
   */
  function Get<V>(c: Cache<V>, k: Key): (r: (Cache<V>, Result<V>))
    requires Inv(c)
    ensures Inv(r.0) && r.0.size == c.size && r.0.vals == c.vals && Count(r.0) == Count(c)
    ensures r.1.Ok? <==> k in c.vals
    ensures r.1.Err? ==> r.0 == c
    ensures r.1.Ok? ==> r.1.value == c.vals[k]
    ensures r.1.Ok? ==> var i := IndexOf(c.keys, k); r.0.keys == c.keys[..i] + c.keys[i + 1..] + [k]
  {
    if k !in c.vals then (c, Err(InvalidArgument))
    else
      var value := c.vals[k];
      (ChangeKeyToLastUsed(c, k, value), Ok(value))
  }

  /**
    `set` once the key has passed the type check. An existing key is
    overwritten and promoted without eviction; a new key is appended, after
    the least recently used entry is evicted when the cache is full.
   */
  function SetKey<V>(c: Cache<V>, k: Key, v: V): (d: Cache<V>)
    requires Inv(c)
    ensures Inv(d) && d.size == c.size
    ensures k in d.vals && d.vals[k] == v && d.keys[|d.keys| - 1] == k
    ensures k in c.vals ==>
      var i := IndexOf(c.keys, k);
      d.keys == c.keys[..i] + c.keys[i + 1..] + [k] && d.vals == c.vals[k := v]
    ensures k !in c.vals && Count(c) < c.size ==> d.keys == c.keys + [k] && d.vals == c.vals[k := v]
    ensures k !in c.vals && Count(c) == c.size ==>
      d.keys == c.keys[1..] + [k] && d.vals == (c.vals - {c.keys[0]})[k := v]
    // only the least recently used key can be lost, and only by a new key on a full cache
    ensures forall x :: x in c.vals && x !in d.vals ==>
      k !in c.vals && Count(c) == c.size && x == c.keys[0]
    ensures Count(d) == if k !in c.vals && Count(c) < c.size then Count(c) + 1 else Count(c)
  {
    if k in c.vals then ChangeKeyToLastUsed(c, k, v)
    else
      var e := if Count(c) == c.size then RemoveEarliestUsedKey(c) else c;
      assert k !in e.keys;
      AppendNoDup(e.keys, k);
      Cache(e.size, e.keys + [k], e.vals[k := v])
  }

  /** `set`: a key that is neither an integer nor a string fails before anything changes. */
  function Set<V>(c: Cache<V>, key: PhpValue, v: V): (r: Result<Cache<V>>)
    requires Inv(c)
    ensures r.Err? <==> !(key.PhpInt? || key.PhpString?)
    ensures r.Ok? ==> Inv(r.value) && r.value.size == c.size
    ensures r.Ok? ==> var k := KeyOf(key).value; k in r.value.vals && r.value.vals[k] == v
    ensures r.Ok? ==> r.value == SetKey(c, KeyOf(key).value, v)
  {
    match KeyOf(key)
    case Err(e) => Err(e)
    case Ok(k) => Ok(SetKey(c, k, v))
  }

  /** `remove`: deletes `k` when present and is a no-op otherwise; the other entries keep order and values. */
  function Remove<V>(c: Cache<V>, k: Key): (d: Cache<V>)
    requires Inv(c)
    ensures Inv(d) && d.size == c.size
    ensures k !in d.vals
    ensures d.vals == c.vals - {k}
    ensures k !in c.vals ==> d == c
    ensures k in c.vals ==>
      var i := IndexOf(c.keys, k);
      d.keys == c.keys[..i] + c.keys[i + 1..] && Count(d) == Count(c) - 1
  {
    if k !in c.keys then c
    else
      RemoveKeyAt(c.keys, IndexOf(c.keys, k));
      Cache(c.size, RemoveKey(c.keys, k), c.vals - {k})
  }
}
