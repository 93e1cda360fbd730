/**
  Sequences of cache operations: what holds after any run of `get`, `set` and
  `remove`, and the eviction order that a run of `set` calls produces.
 */
module LruTraces {
  import opened LruSpec

  /** One call on the cache; a call that fails leaves the cache as it was. */
  datatype Op<V> = GetOp(key: Key) | SetOp(arg: PhpValue, value: V) | RemoveOp(key: Key)

  function Step<V>(c: Cache<V>, op: Op<V>): (d: Cache<V>)
    requires Inv(c)
    ensures Inv(d) && d.size == c.size
  {
    match op
    case GetOp(k) => Get(c, k).0
    case SetOp(k, v) => (match Set(c, k, v) case Ok(e) => e case Err(_) => c)
    case RemoveOp(k) => Remove(c, k)
  }

  /** The cache after the calls `ops`, made one after the other. */
  function Run<V>(c: Cache<V>, ops: seq<Op<V>>): (d: Cache<V>)
    requires Inv(c)
    ensures Inv(d) && d.size == c.size && Count(d) <= c.size
    decreases |ops|
  {
    if ops == [] then c else Run(Step(c, ops[0]), ops[1..])
  }

  /** `set` called with each key of `ks` and the value at the same place in `vs`. */
  function Sets<V>(ks: seq<Key>, vs: seq<V>): (ops: seq<Op<V>>)
    requires |ks| == |vs|
  {
    seq(|ks|, i requires 0 <= i < |ks| => SetOp(PhpOf(ks[i]), vs[i]))
  }

  lemma {:induction false} RunAppend<V>(c: Cache<V>, a: seq<Op<V>>, b: seq<Op<V>>)
    requires Inv(c)
    ensures Run(c, a + b) == Run(Run(c, a), b)
    decreases |a|
  {
    if a == [] {
      assert a + b == b;
    } else {
      assert (a + b)[0] == a[0] && (a + b)[1..] == a[1..] + b;
      RunAppend(Step(c, a[0]), a[1..], b);
    }
  }

  /**
    Setting keys that are new and distinct, no more than there is room for,
    appends them in order and evicts nothing.
   */
  lemma {:induction false} FillInOrder<V>(c: Cache<V>, ks: seq<Key>, vs: seq<V>)
    requires Inv(c) && |ks| == |vs|
    requires NoDup(c.keys + ks) && Count(c) + |ks| <= c.size
    ensures var d := Run(c, Sets(ks, vs));
      && d.keys == c.keys + ks
      && (forall x :: x in c.vals ==> x in d.vals && d.vals[x] == c.vals[x])
      && (forall j :: 0 <= j < |ks| ==> ks[j] in d.vals && d.vals[ks[j]] == vs[j])
    decreases |ks|
  {
    if ks == [] {
      assert Sets(ks, vs) == [];
      assert c.keys + ks == c.keys;
    } else {
      NoDupJoin(c.keys, ks);
      RunSetsCons(c, ks, vs);
      var c1 := SetKey(c, ks[0], vs[0]);
      assert c1.keys == c.keys + [ks[0]] && c1.vals == c.vals[ks[0] := vs[0]];
      MoveFirst(c.keys, ks);
      FillInOrder(c1, ks[1..], vs[1..]);
      FillValues(c.vals, ks, vs, Run(c1, Sets(ks[1..], vs[1..])).vals);
    }
  }

  /** The values after a fill, from the values after the first `set` and after the rest. */
  lemma FillValues<V>(m: map<Key, V>, ks: seq<Key>, vs: seq<V>, dv: map<Key, V>)
    requires |ks| == |vs| > 0 && ks[0] !in m
    requires forall x :: x in m[ks[0] := vs[0]] ==> x in dv && dv[x] == m[ks[0] := vs[0]][x]
    requires forall j :: 0 <= j < |ks[1..]| ==> ks[1..][j] in dv && dv[ks[1..][j]] == vs[1..][j]
    ensures forall x :: x in m ==> x in dv && dv[x] == m[x]
    ensures forall j :: 0 <= j < |ks| ==> ks[j] in dv && dv[ks[j]] == vs[j]
  {
    forall j | 0 <= j < |ks| ensures ks[j] in dv && dv[ks[j]] == vs[j] {
      if j > 0 {
        assert ks[1..][j - 1] == ks[j];
      }
    }
  }

  lemma MoveFirst<T>(a: seq<T>, b: seq<T>)
    requires b != []
    ensures (a + [b[0]]) + b[1..] == a + b
  {
    assert [b[0]] + b[1..] == b;
  }

  /** The last `set` of a run of `set` calls acts on the cache the earlier ones left. */
  lemma RunSetsLast<V>(c: Cache<V>, ks: seq<Key>, vs: seq<V>)
    requires Inv(c) && |ks| == |vs| > 0
    ensures var n := |ks| - 1;
      Run(c, Sets(ks, vs)) == SetKey(Run(c, Sets(ks[..n], vs[..n])), ks[n], vs[n])
  {
    var n := |ks| - 1;
    var ops := Sets(ks, vs);
    assert ops == Sets(ks[..n], vs[..n]) + [ops[n]];
    RunAppend(c, Sets(ks[..n], vs[..n]), [ops[n]]);
    var m := Run(c, Sets(ks[..n], vs[..n]));
    StepSet(m, ks[n], vs[n]);
    assert ops[n] == SetOp(PhpOf(ks[n]), vs[n]);
    assert Run(m, [ops[n]]) == Run(Step(m, ops[n]), []) by {
      assert [ops[n]][1..] == [];
    }
  }

  /**
    From an empty cache of capacity `n`, after at most `n` calls of `set`, a
    key reads back the value of its last `set`, repeated keys included.
   */
  lemma SetsUpToCapacityAreRetrievable<V>(n: nat, ks: seq<Key>, vs: seq<V>, j: nat)
    requires 0 < n && |ks| == |vs| && |ks| <= n && j < |ks| && ks[j] !in ks[j + 1..]
    ensures Get(Run(Cache(n, [], map[]), Sets(ks, vs)), ks[j]).1 == Ok(vs[j])
  {
    SetsWithRoom(Cache(n, [], map[]), ks, vs);
  }

  /**
    While there is room for every call, a run of `set` calls evicts nothing:
    keys not set keep their values, each key holds the value of its last
    `set`, and the count grows by at most the number of calls.
   */
  lemma {:induction false} SetsWithRoom<V>(c: Cache<V>, ks: seq<Key>, vs: seq<V>)
    requires Inv(c) && |ks| == |vs| && Count(c) + |ks| <= c.size
    ensures var d := Run(c, Sets(ks, vs));
      && Count(d) <= Count(c) + |ks|
      && (forall x :: x in c.vals && x !in ks ==> x in d.vals && d.vals[x] == c.vals[x])
      && (forall j :: 0 <= j < |ks| && ks[j] !in ks[j + 1..] ==> ks[j] in d.vals && d.vals[ks[j]] == vs[j])
    decreases |ks|
  {
    if ks == [] {
      assert Sets(ks, vs) == [];
    } else {
      RunSetsCons(c, ks, vs);
      var c1 := SetKey(c, ks[0], vs[0]);
      assert c1.vals == c.vals[ks[0] := vs[0]] && Count(c1) <= Count(c) + 1;
      SetsWithRoom(c1, ks[1..], vs[1..]);
      RoomValues(c.vals, ks, vs, Run(c1, Sets(ks[1..], vs[1..])).vals);
    }
  }

  /** The first `set` of a run of `set` calls acts on the cache itself. */
  lemma RunSetsCons<V>(c: Cache<V>, ks: seq<Key>, vs: seq<V>)
    requires Inv(c) && |ks| == |vs| > 0
    ensures Run(c, Sets(ks, vs)) == Run(SetKey(c, ks[0], vs[0]), Sets(ks[1..], vs[1..]))
  {
    var ops := Sets(ks, vs);
    StepSet(c, ks[0], vs[0]);
    SetsTail(ks, vs);
    assert ops[0] == SetOp(PhpOf(ks[0]), vs[0]);
  }

  /** A `set` of a key that passes the type check is `SetKey`. */
  lemma StepSet<V>(c: Cache<V>, k: Key, v: V)
    requires Inv(c)
    ensures Step(c, SetOp(PhpOf(k), v)) == SetKey(c, k, v)
  {
    KeyOfPhpOf(k);
  }

  lemma SetsTail<V>(ks: seq<Key>, vs: seq<V>)
    requires |ks| == |vs| > 0
    ensures Sets(ks, vs)[1..] == Sets(ks[1..], vs[1..])
  {
  }

  /** The values after a run of `set` calls, from the values after its first call and after the rest. */
  lemma RoomValues<V>(m: map<Key, V>, ks: seq<Key>, vs: seq<V>, dv: map<Key, V>)
    requires |ks| == |vs| > 0
    requires forall x :: x in m[ks[0] := vs[0]] && x !in ks[1..] ==> x in dv && dv[x] == m[ks[0] := vs[0]][x]
    requires forall j :: 0 <= j < |ks[1..]| && ks[1..][j] !in ks[1..][j + 1..] ==>
      ks[1..][j] in dv && dv[ks[1..][j]] == vs[1..][j]
    ensures forall x :: x in m && x !in ks ==> x in dv && dv[x] == m[x]
    ensures forall j :: 0 <= j < |ks| && ks[j] !in ks[j + 1..] ==> ks[j] in dv && dv[ks[j]] == vs[j]
  {
    forall x | x in m && x !in ks ensures x in dv && dv[x] == m[x] {
      assert x != ks[0] && x !in ks[1..] by {
        assert ks == [ks[0]] + ks[1..];
      }
    }
    forall j | 0 <= j < |ks| && ks[j] !in ks[j + 1..] ensures ks[j] in dv && dv[ks[j]] == vs[j] {
      if j > 0 {
        assert ks[1..][j - 1] == ks[j] && ks[1..][j..] == ks[j + 1..];
      }
    }
  }

  /**
    Eviction order: from an empty cache of capacity `n`, setting `n + 1`
    distinct keys in turn evicts the first one and keeps the other `n`, in order.
   */
  lemma EvictionOrder<V>(n: nat, ks: seq<Key>, vs: seq<V>)
    requires 0 < n && |ks| == |vs| == n + 1 && NoDup(ks)
    ensures var d := Run(Cache(n, [], map[]), Sets(ks, vs));
      && d.keys == ks[1..]
      && ks[0] !in d.vals
      && forall j :: 1 <= j <= n ==> d.vals[ks[j]] == vs[j]
  {
    var c0: Cache<V> := Cache(n, [], map[]);
    var ops := Sets(ks, vs);
    var m := Run(c0, Sets(ks[..n], vs[..n]));
    assert m.keys == ks[..n] && forall j :: 0 <= j < n ==> m.vals[ks[j]] == vs[j] by {
      assert c0.keys + ks[..n] == ks[..n];
      NoDupPrefix(ks, n);
      FillInOrder(c0, ks[..n], vs[..n]);
      forall j | 0 <= j < n ensures m.vals[ks[j]] == vs[j] {
        assert ks[..n][j] == ks[j];
      }
    }
    RunSetsLast(c0, ks, vs);
    FullSetEvictsFirst(m, ks, vs);
  }

  /** The step of `EvictionOrder` that overflows the cache filled with all keys but the last. */
  lemma FullSetEvictsFirst<V>(m: Cache<V>, ks: seq<Key>, vs: seq<V>)
    requires |ks| == |vs| >= 2 && NoDup(ks)
    requires Inv(m) && m.size == |ks| - 1 && m.keys == ks[..m.size]
    requires forall j :: 0 <= j < m.size ==> m.vals[ks[j]] == vs[j]
    ensures var n := m.size; var d := SetKey(m, ks[n], vs[n]);
      && d.keys == ks[1..]
      && ks[0] !in d.vals
      && forall j :: 1 <= j <= n ==> d.vals[ks[j]] == vs[j]
  {
    var n := m.size;
    assert ks[n] !in m.vals by {
      forall j | 0 <= j < n ensures m.keys[j] != ks[n] {
        assert m.keys[j] == ks[j];
        NoDupIndex(ks, j, n);
      }
    }
    var d := SetKey(m, ks[n], vs[n]);
    assert d.keys == m.keys[1..] + [ks[n]] && d.vals == (m.vals - {m.keys[0]})[ks[n] := vs[n]];
    assert m.keys[0] == ks[0] && m.keys[1..] + [ks[n]] == ks[1..];
    EvictFirstValues(m.vals, ks, vs);
  }

  /** The values once the first key is dropped and the last one stored. */
  lemma EvictFirstValues<V>(m: map<Key, V>, ks: seq<Key>, vs: seq<V>)
    requires |ks| == |vs| >= 2 && NoDup(ks)
    requires forall j :: 0 <= j < |ks| - 1 ==> ks[j] in m && m[ks[j]] == vs[j]
    ensures var n := |ks| - 1; var dv := (m - {ks[0]})[ks[n] := vs[n]];
      && ks[0] !in dv
      && forall j :: 1 <= j <= n ==> dv[ks[j]] == vs[j]
  {
    var n := |ks| - 1;
    NoDupIndex(ks, 0, n);
    forall j | 1 <= j < n ensures ks[j] != ks[0] && ks[j] != ks[n] {
      NoDupIndex(ks, 0, j);
      NoDupIndex(ks, j, n);
    }
  }

  /**
    A read protects an entry from the next eviction: on a full cache of
    capacity at least two, reading `k` and then setting a new key evicts the
    least recently used of the other keys and keeps `k` with its value.
   */
  lemma ReadProtectsFromEviction<V>(c: Cache<V>, k: Key, x: Key, v: V)
    requires Inv(c) && Count(c) == c.size >= 2 && k in c.vals && x !in c.vals
    ensures var d := SetKey(Get(c, k).0, x, v);
      && k in d.vals && d.vals[k] == c.vals[k]
      && d.keys == RemoveKey(c.keys, k)[1..] + [k, x]
  {
    var rest := RemoveKey(c.keys, k);
    var c1 := Get(c, k).0;
    assert c1.keys == rest + [k] && |rest| >= 1 by {
      RemoveKeyAt(c.keys, IndexOf(c.keys, k));
    }
    assert rest[0] in rest;
    SetFullKeeps(c1, x, v, k);
    ShiftLast(rest, k, x);
  }

  lemma ShiftLast<T>(r: seq<T>, k: T, x: T)
    requires |r| >= 1
    ensures (r + [k])[1..] + [x] == r[1..] + [k, x]
  {
    assert (r + [k])[1..] == r[1..] + [k];
  }

  /** A new key on a full cache evicts only the first key: every other entry keeps its value. */
  lemma SetFullKeeps<V>(c: Cache<V>, x: Key, v: V, k: Key)
    requires Inv(c) && Count(c) == c.size && x !in c.vals && k in c.vals && k != c.keys[0]
    ensures var d := SetKey(c, x, v);
      && k in d.vals && d.vals[k] == c.vals[k]
      && d.keys == c.keys[1..] + [x]
  {
  }
}
