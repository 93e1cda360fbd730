/**
  The scenarios of the cache's unit tests, on a cache of capacity 3 with
  string keys, stated as lemmas about the model.
 */
module LruScenarios {
  import opened LruSpec
  import opened LruCacheClass

  const Foo := StrKey("foo")
  const Bar := StrKey("bar")
  const Baz := StrKey("baz")
  const Buz := StrKey("buz")

  /** The cache every test starts from: `new LruCache(3)`. */
  function Three(): (c: Cache<int>)
    ensures Inv(c)
  {
    New(PhpInt(3)).value
  }

  /** A value that is read back is the one that was set, whatever its type. */
  lemma CanSetAndGetValue<V>(v: V)
    ensures var c := New<V>(PhpInt(3)).value; Get(SetKey(c, Foo, v), Foo).1 == Ok(v)
  {
  }

  /** Setting a key twice keeps the second value. */
  lemma CanOverwriteExistingKey<V>(v1: V, v2: V)
    ensures var c := New<V>(PhpInt(3)).value; Get(SetKey(SetKey(c, Foo, v1), Foo, v2), Foo).1 == Ok(v2)
  {
  }

  /** Reading a key that was never set fails. */
  lemma KeyValueIsNotSet<V>()
    ensures var c := New<V>(PhpInt(3)).value; Get(c, Foo) == (c, Err(InvalidArgument))
  {
  }

  /** `set` refuses null, booleans, arrays, objects and floats as keys. */
  lemma SetInvalidKey<V>(v: V)
    ensures forall key :: key in [PhpNull, PhpBool(false), PhpBool(true), PhpArray([]), PhpObject, PhpFloat(1.23)] ==>
      Set(New<V>(PhpInt(3)).value, key, v) == Err(InvalidArgument)
  {
  }

  /** The constructor refuses null, booleans, arrays, objects, floats, zero and negative sizes. */
  lemma CreateCacheWithInvalidSize()
    ensures forall size :: size in [PhpNull, PhpBool(false), PhpBool(true), PhpArray([]), PhpObject,
                                    PhpFloat(1.23), PhpInt(0), PhpInt(-1), PhpInt(-1234)] ==>
      New<int>(size) == Err(InvalidArgument)
  {
  }

  /** A cache of capacity 3 holding `vals` in the order `keys`. */
  function Of(keys: seq<Key>, vals: map<Key, int>): (c: Cache<int>) {
    Cache(3, keys, vals)
  }

  /** Three different keys, in any order, are free of duplicates. */
  lemma Distinct3(a: Key, b: Key, c: Key)
    requires a != b && a != c && b != c
    ensures NoDup([a, b, c])
  {
    assert [c][1..] == [] && NoDup([c]);
    assert [b, c][1..] == [c] && NoDup([b, c]);
    assert [a, b, c][1..] == [b, c];
  }

  // The states the scenarios pass through, one `set` or `get` at a time.

  lemma SetFoo()
    ensures SetKey(Three(), Foo, 1) == Of([Foo], map[Foo := 1])
  {
    assert Three() == Of([], map[]);
    assert [] + [Foo] == [Foo];
  }

  lemma SetBarOnFoo()
    ensures SetKey(Of([Foo], map[Foo := 1]), Bar, 2) == Of([Foo, Bar], map[Foo := 1, Bar := 2])
  {
    assert [Foo] + [Bar] == [Foo, Bar];
  }

  lemma SetBazOnFooBar()
    ensures SetKey(Of([Foo, Bar], map[Foo := 1, Bar := 2]), Baz, 3)
         == Of([Foo, Bar, Baz], map[Foo := 1, Bar := 2, Baz := 3])
  {
    assert [Foo, Bar] + [Baz] == [Foo, Bar, Baz];
  }

  lemma SetBazOnFoo()
    ensures SetKey(Of([Foo], map[Foo := 1]), Baz, 2) == Of([Foo, Baz], map[Foo := 1, Baz := 2])
  {
    assert [Foo] + [Baz] == [Foo, Baz];
  }

  lemma SetBarOnFooBaz()
    ensures SetKey(Of([Foo, Baz], map[Foo := 1, Baz := 2]), Bar, 3)
         == Of([Foo, Baz, Bar], map[Foo := 1, Baz := 2, Bar := 3])
  {
    assert [Foo, Baz] + [Bar] == [Foo, Baz, Bar];
  }

  lemma SetBuzOnFooBarBaz()
    ensures var c := Of([Foo, Bar, Baz], map[Foo := 1, Bar := 2, Baz := 3]);
      Inv(c) && SetKey(c, Buz, 4) == Of([Bar, Baz, Buz], map[Bar := 2, Baz := 3, Buz := 4])
  {
    var c := Of([Foo, Bar, Baz], map[Foo := 1, Bar := 2, Baz := 3]);
    Distinct3(Foo, Bar, Baz);
    assert c.keys[1..] + [Buz] == [Bar, Baz, Buz];
    assert (c.vals - {Foo})[Buz := 4] == map[Bar := 2, Baz := 3, Buz := 4];
  }

  lemma SetBazOnFooBazBar()
    ensures var c := Of([Foo, Baz, Bar], map[Foo := 1, Baz := 2, Bar := 3]);
      Inv(c) && SetKey(c, Baz, 4) == Of([Foo, Bar, Baz], map[Foo := 1, Bar := 3, Baz := 4])
  {
    var c := Of([Foo, Baz, Bar], map[Foo := 1, Baz := 2, Bar := 3]);
    Distinct3(Foo, Baz, Bar);
    assert IndexOf(c.keys, Baz) == 1;
    assert c.keys[..1] + c.keys[2..] + [Baz] == [Foo, Bar, Baz];
    assert c.vals[Baz := 4] == map[Foo := 1, Bar := 3, Baz := 4];
  }

  lemma GetFooOnFooBarBaz()
    ensures var c := Of([Foo, Bar, Baz], map[Foo := 1, Bar := 2, Baz := 3]);
      Inv(c) && Get(c, Foo) == (Of([Bar, Baz, Foo], map[Foo := 1, Bar := 2, Baz := 3]), Ok(1))
  {
    var c := Of([Foo, Bar, Baz], map[Foo := 1, Bar := 2, Baz := 3]);
    Distinct3(Foo, Bar, Baz);
    assert IndexOf(c.keys, Foo) == 0;
    assert c.keys[..0] + c.keys[1..] + [Foo] == [Bar, Baz, Foo];
    assert c.vals[Foo := 1] == c.vals;
  }

  lemma SetBuzOnBarBazFoo()
    ensures var c := Of([Bar, Baz, Foo], map[Foo := 1, Bar := 2, Baz := 3]);
      Inv(c) && SetKey(c, Buz, 4) == Of([Baz, Foo, Buz], map[Foo := 1, Baz := 3, Buz := 4])
  {
    var c := Of([Bar, Baz, Foo], map[Foo := 1, Bar := 2, Baz := 3]);
    Distinct3(Bar, Baz, Foo);
    assert Buz !in c.vals && Count(c) == c.size;
    assert c.keys[1..] + [Buz] == [Baz, Foo, Buz];
    assert (c.vals - {Bar})[Buz := 4] == map[Foo := 1, Baz := 3, Buz := 4];
  }

  /**
    Four new keys on a cache of three: the first is evicted, the other three
    keep their values (reads do not change values, so each is read from the same state).
   */
  lemma OverflowRemovesEarliestUsedKey()
    ensures var c := SetKey(SetKey(SetKey(SetKey(Three(), Foo, 1), Bar, 2), Baz, 3), Buz, 4);
      && Get(c, Foo) == (c, Err(InvalidArgument))
      && Get(c, Bar).1 == Ok(2)
      && Get(c, Baz).1 == Ok(3)
      && Get(c, Buz).1 == Ok(4)
  {
    SetFoo();
    SetBarOnFoo();
    SetBazOnFooBar();
    SetBuzOnFooBarBaz();
  }

  /** Overwriting a key of a full cache evicts nothing. */
  lemma SetTheSameKeyNotRemoveEarliestUsedKey()
    ensures var c := SetKey(SetKey(SetKey(SetKey(Three(), Foo, 1), Baz, 2), Bar, 3), Baz, 4);
      && Get(c, Foo).1 == Ok(1)
      && Get(c, Baz).1 == Ok(4)
      && Get(c, Bar).1 == Ok(3)
  {
    SetFoo();
    SetBazOnFoo();
    SetBarOnFooBaz();
    SetBazOnFooBazBar();
  }

  /** Reading the least recently used key protects it: the next overflow evicts the key after it. */
  lemma GetEarliestUsedKeyIsRemoved()
    ensures var c := SetKey(Get(SetKey(SetKey(SetKey(Three(), Foo, 1), Bar, 2), Baz, 3), Foo).0, Buz, 4);
      && Get(c, Bar) == (c, Err(InvalidArgument))
      && c.keys == [Baz, Foo, Buz]
  {
    SetFoo();
    SetBarOnFoo();
    SetBazOnFooBar();
    GetFooOnFooBarBaz();
    SetBuzOnBarBazFoo();
  }

  /** The same scenario on the object, through the contracts of its methods alone. */
  method GetEarliestUsedKeyIsRemovedOnObject() returns (read: Result<int>, evicted: Result<int>)
    ensures read == Ok(1) && evicted == Err(InvalidArgument)
  {
    var created := LruCache<int>.Create(PhpInt(3));
    var cache := created.value;
    FillFooBarBaz(cache);
    read := cache.Get(Foo);
    SetBuzOnBarBazFoo();
    var s := cache.Set(PhpString("buz"), 4);
    evicted := cache.Get(Bar);
  }

  method FillFooBarBaz(cache: LruCache<int>)
    requires cache.Valid() && cache.Model() == Three()
    modifies cache
    ensures cache.Valid() && cache.Model() == Of([Foo, Bar, Baz], map[Foo := 1, Bar := 2, Baz := 3])
  {
    SetFoo();
    SetBarOnFoo();
    SetBazOnFooBar();
    var s := cache.Set(PhpString("foo"), 1);
    s := cache.Set(PhpString("bar"), 2);
    s := cache.Set(PhpString("baz"), 3);
  }
}
